/** The splay tree of libs/libuv/tree.h: top-down splaying, insertion and removal in place. The colour of
    the nodes in the picture has no meaning here. */
module Splay {
  import opened Pointers
  import opened RbShape

  /** The links of an element, as in SPLAY_ENTRY. */
  datatype Links = Links(left: Ref, right: Ref)

  type Memory = map<Ref, Links>

  /** The elements of `t` are linked in `m` as `t` pictures them. */
  ghost predicate Tied(m: Memory, t: Tree) {
    match t
    case Leaf => true
    case Bin(l, n, _, r) => n in m && m[n] == Links(RootOf(l), RootOf(r)) && Tied(m, l) && Tied(m, r)
  }

  lemma {:induction false} TiedFrame(m: Memory, m': Memory, t: Tree)
    requires Tied(m, t) && m.Keys == m'.Keys && forall x :: x in Nodes(t) && x in m ==> m'[x] == m[x]
    ensures Tied(m', t)
  {
    if t.Bin? {
      TiedFrame(m, m', t.left);
      TiedFrame(m, m', t.right);
    }
  }

  lemma TiedApart(m: Memory, m': Memory, t: Tree, own: set<Ref>)
    requires Tied(m, t) && m.Keys == m'.Keys && Apart(m, m', own) && Nodes(t) !! own
    ensures Tied(m', t)
  {
    TiedFrame(m, m', t);
  }

  lemma TiedBin(m: Memory, t: Tree)
    requires Tied(m, t) && Distinct(t) && t.Bin?
    ensures t.node in m && m[t.node] == Links(RootOf(t.left), RootOf(t.right)) && Tied(m, t.left) && Tied(m, t.right)
    ensures Nodes(t) == Nodes(t.left) + {t.node} + Nodes(t.right) && Distinct(t.left) && Distinct(t.right)
    ensures t.node.Elem? && t.node !in Nodes(t.left) && t.node !in Nodes(t.right) && Nodes(t.left) !! Nodes(t.right)
  {
  }

  /** The last element of a chain below the temporary node `node`. */
  ghost function Last(node: Ref, c: Ctx): Ref {
    if c.Top? then node else c.node
  }

  /** The state of a splay: the left tree, the current tree and the right tree. */
  ghost predicate Parts(m: Memory, node: Ref, l: Ctx, t: Tree, r: Ctx) {
    && Null !in m && node in m
    && LeftChain(m, node, l) && Tied(m, t) && RightChain(m, node, r)
    && CtxDistinct(l) && Distinct(t) && CtxDistinct(r)
    && CtxNodes(l) !! Nodes(t) && CtxNodes(l) !! CtxNodes(r) && Nodes(t) !! CtxNodes(r)
    && node !in CtxNodes(l) && node !in Nodes(t) && node !in CtxNodes(r)
  }

  lemma TakeLeft(s: seq<Ref>, k: int, p: seq<Ref>, x: seq<Ref>, n: Ref, y: seq<Ref>, q: seq<Ref>)
    requires Sorted(s) && p + (x + [n] + y) + q == s && Above(q, k) && n.Elem? && k < n.key
    ensures p + x + ([n] + y + q) == s && Above([n] + y + q, k)
  {
    assert (p + x) + [n] + (y + q) == s;
    SortedAround(p + x, n, y + q);
    forall e | e in y ensures e in y + q {
    }
  }

  lemma TakeRight(s: seq<Ref>, k: int, p: seq<Ref>, x: seq<Ref>, n: Ref, y: seq<Ref>, q: seq<Ref>)
    requires Sorted(s) && p + (x + [n] + y) + q == s && Below(p, k) && n.Elem? && n.key < k
    ensures (p + x + [n]) + y + q == s && Below(p + x + [n], k)
  {
    assert (p + x) + [n] + (y + q) == s;
    SortedAround(p + x, n, y + q);
    forall e | e in x ensures e in p + x {
    }
  }

  lemma AfterGrown(r: Ctx, t: Tree)
    requires t.Bin?
    ensures After(InLeft(r, t.node, t.red, t.right)) == [t.node] + InOrder(t.right) + After(r)
  {
  }

  lemma BeforeGrown(l: Ctx, t: Tree)
    requires t.Bin?
    ensures Before(InRight(t.left, t.node, t.red, l)) == Before(l) + InOrder(t.left) + [t.node]
  {
  }

  /** The three trees hold the elements `s` in order, and `k` belongs into the current one. */
  ghost predicate Spread(s: seq<Ref>, k: int, l: Ctx, t: Tree, r: Ctx) {
    Before(l) + InOrder(t) + After(r) == s && Below(Before(l), k) && Above(After(r), k)
  }

  /** The elements that the splay has moved to the right tree, linked by their left links below the
      temporary node; the left link of the last one is free. */
  ghost predicate RightChain(m: Memory, node: Ref, c: Ctx) {
    match c
    case Top => true
    case InRight(_, _, _, _) => false
    case InLeft(up, n, _, r) =>
      && n in m && m[n].right == RootOf(r) && Tied(m, r)
      && RightChain(m, node, up) && Last(node, up) in m && m[Last(node, up)].left == n
  }

  lemma {:induction false} RightChainFrame(m: Memory, m': Memory, node: Ref, c: Ctx)
    requires RightChain(m, node, c) && CtxDistinct(c) && m.Keys == m'.Keys
    requires forall x :: x in CtxNodes(c) && x != ParentOf(c) && x in m ==> m'[x] == m[x]
    requires c.InLeft? ==> m'[c.node].right == m[c.node].right && node in m && m'[node].left == m[node].left
    ensures RightChain(m', node, c)
  {
    if c.InLeft? {
      TiedFrame(m, m', c.right);
      RightChainFrame(m, m', node, c.up);
    }
  }

  /** When the free link is set, the chain is a tree. */
  lemma {:induction false} RightChainClosed(m: Memory, node: Ref, c: Ctx, t: Tree)
    requires RightChain(m, node, c) && Tied(m, t) && Last(node, c) in m && m[Last(node, c)].left == RootOf(t)
    ensures Tied(m, Plug(c, t)) && node in m && m[node].left == RootOf(Plug(c, t))
    decreases c
  {
    if c.InLeft? {
      RightChainClosed(m, node, c.up, Bin(t, c.node, c.red, c.right));
    }
  }

  lemma {:induction false} RightSides(m: Memory, node: Ref, c: Ctx)
    requires RightChain(m, node, c)
    ensures Before(c) == []
  {
    if c.InLeft? {
      RightSides(m, node, c.up);
    }
  }

  /** SPLAY_LINKLEFT: the root and its right subtree go to the right tree. */
  function LinkedLeft(m: Memory, root: Ref, last: Ref): Memory
    requires last in m
  {
    m[last := m[last].(left := root)]
  }

  lemma LinkLeftParts(m: Memory, node: Ref, l: Ctx, t: Tree, r: Ctx)
    requires Parts(m, node, l, t, r) && t.Bin?
    ensures Last(node, r) in m
            && Parts(LinkedLeft(m, t.node, Last(node, r)), node, l, t.left, InLeft(r, t.node, t.red, t.right))
  {
    var last := Last(node, r);
    var m' := LinkedLeft(m, t.node, last);
    RightLast(m, node, r);
    TiedFrame(m, m', t.left);
    TiedFrame(m, m', t.right);
    LeftChainFrame(m, m', node, l);
    RightChainFrame(m, m', node, r);
  }

  lemma RightLast(m: Memory, node: Ref, c: Ctx)
    requires RightChain(m, node, c) && node in m
    ensures Last(node, c) in m && (Last(node, c) == node || Last(node, c) in CtxNodes(c))
  {
  }

  /** SPLAY_ROTATE_RIGHT. */
  function RotatedRightLinks(m: Memory, root: Ref, tmp: Ref): Memory
    requires root in m && tmp in m
  {
    var m1 := m[root := m[root].(left := m[tmp].right)];
    m1[tmp := m1[tmp].(right := root)]
  }

  lemma RotateRightParts(m: Memory, node: Ref, l: Ctx, t: Tree, r: Ctx)
    requires Parts(m, node, l, t, r) && t.Bin? && t.left.Bin?
    ensures t.node in m && t.left.node in m
            && Parts(RotatedRightLinks(m, t.node, t.left.node), node, l, RotatedRight(t), r)
  {
    hide Tied, Distinct, CtxDistinct, CtxNodes, Nodes, LeftChain, RightChain;
    TiedBin(m, t);
    TiedBin(m, t.left);
    var m' := RotatedRightLinks(m, t.node, t.left.node);
    TiedFrame(m, m', t.left.left);
    TiedFrame(m, m', t.left.right);
    TiedFrame(m, m', t.right);
    var u := RotatedRight(t);
    TiedNode(m', u.right);
    DistinctNode(u.right);
    TiedNode(m', u);
    DistinctNode(u);
    ChainNodes(l);
    ChainNodes(r);
    LeftChainFrame(m, m', node, l);
    RightChainFrame(m, m', node, r);
  }

  lemma LinkLeftOrder(s: seq<Ref>, k: int, l: Ctx, t: Tree, r: Ctx)
    requires Sorted(s) && Spread(s, k, l, t, r) && t.Bin? && t.node.Elem? && k < t.node.key
    ensures Spread(s, k, l, t.left, InLeft(r, t.node, t.red, t.right))
  {
    hide InOrder, Before, After, Below, Above, Sorted;
    InOrderBin(t);
    AfterGrown(r, t);
    TakeLeft(s, k, Before(l), InOrder(t.left), t.node, InOrder(t.right), After(r));
  }

  /** The elements that the splay has moved to the left tree, linked by their right links below the
      temporary node; the right link of the last one is free. */
  ghost predicate LeftChain(m: Memory, node: Ref, c: Ctx) {
    match c
    case Top => true
    case InLeft(_, _, _, _) => false
    case InRight(l, n, _, up) =>
      && n in m && m[n].left == RootOf(l) && Tied(m, l)
      && LeftChain(m, node, up) && Last(node, up) in m && m[Last(node, up)].right == n
  }

  lemma {:induction false} LeftChainFrame(m: Memory, m': Memory, node: Ref, c: Ctx)
    requires LeftChain(m, node, c) && CtxDistinct(c) && m.Keys == m'.Keys
    requires forall x :: x in CtxNodes(c) && x != ParentOf(c) && x in m ==> m'[x] == m[x]
    requires c.InRight? ==> m'[c.node].left == m[c.node].left && node in m && m'[node].right == m[node].right
    ensures LeftChain(m', node, c)
  {
    if c.InRight? {
      TiedFrame(m, m', c.left);
      LeftChainFrame(m, m', node, c.up);
    }
  }

  /** When the free link is set, the chain is a tree. */
  lemma {:induction false} LeftChainClosed(m: Memory, node: Ref, c: Ctx, t: Tree)
    requires LeftChain(m, node, c) && Tied(m, t) && Last(node, c) in m && m[Last(node, c)].right == RootOf(t)
    ensures Tied(m, Plug(c, t)) && node in m && m[node].right == RootOf(Plug(c, t))
    decreases c
  {
    if c.InRight? {
      LeftChainClosed(m, node, c.up, Bin(c.left, c.node, c.red, t));
    }
  }

  lemma {:induction false} LeftSides(m: Memory, node: Ref, c: Ctx)
    requires LeftChain(m, node, c)
    ensures After(c) == []
  {
    if c.InRight? {
      LeftSides(m, node, c.up);
    }
  }

  /** SPLAY_LINKRIGHT: the root and its left subtree go to the left tree. */
  function LinkedRight(m: Memory, root: Ref, last: Ref): Memory
    requires last in m
  {
    m[last := m[last].(right := root)]
  }

  lemma LinkRightParts(m: Memory, node: Ref, l: Ctx, t: Tree, r: Ctx)
    requires Parts(m, node, l, t, r) && t.Bin?
    ensures Last(node, l) in m
            && Parts(LinkedRight(m, t.node, Last(node, l)), node, InRight(t.left, t.node, t.red, l), t.right, r)
  {
    var last := Last(node, l);
    var m' := LinkedRight(m, t.node, last);
    LeftLast(m, node, l);
    TiedFrame(m, m', t.right);
    TiedFrame(m, m', t.left);
    RightChainFrame(m, m', node, r);
    LeftChainFrame(m, m', node, l);
  }

  lemma LeftLast(m: Memory, node: Ref, c: Ctx)
    requires LeftChain(m, node, c) && node in m
    ensures Last(node, c) in m && (Last(node, c) == node || Last(node, c) in CtxNodes(c))
  {
  }

  /** SPLAY_ROTATE_LEFT. */
  function RotatedLeftLinks(m: Memory, root: Ref, tmp: Ref): Memory
    requires root in m && tmp in m
  {
    var m1 := m[root := m[root].(right := m[tmp].left)];
    m1[tmp := m1[tmp].(left := root)]
  }

  lemma RotateLeftParts(m: Memory, node: Ref, l: Ctx, t: Tree, r: Ctx)
    requires Parts(m, node, l, t, r) && t.Bin? && t.right.Bin?
    ensures t.node in m && t.right.node in m
            && Parts(RotatedLeftLinks(m, t.node, t.right.node), node, l, RotatedLeft(t), r)
  {
    hide Tied, Distinct, CtxDistinct, CtxNodes, Nodes, RightChain, LeftChain;
    TiedBin(m, t);
    TiedBin(m, t.right);
    var m' := RotatedLeftLinks(m, t.node, t.right.node);
    TiedFrame(m, m', t.right.right);
    TiedFrame(m, m', t.right.left);
    TiedFrame(m, m', t.left);
    var u := RotatedLeft(t);
    TiedNode(m', u.left);
    DistinctNode(u.left);
    TiedNode(m', u);
    DistinctNode(u);
    ChainNodes(r);
    ChainNodes(l);
    RightChainFrame(m, m', node, r);
    LeftChainFrame(m, m', node, l);
  }

  lemma LinkRightOrder(s: seq<Ref>, k: int, l: Ctx, t: Tree, r: Ctx)
    requires Sorted(s) && Spread(s, k, l, t, r) && t.Bin? && t.node.Elem? && t.node.key < k
    ensures Spread(s, k, InRight(t.left, t.node, t.red, l), t.right, r)
  {
    hide InOrder, After, Before, Above, Below, Sorted;
    InOrderBin(t);
    BeforeGrown(l, t);
    TakeRight(s, k, Before(l), InOrder(t.left), t.node, InOrder(t.right), After(r));
  }

  lemma ChainNodes(c: Ctx)
    ensures !c.Top? ==> c.node in CtxNodes(c)
  {
  }

  // ---------- The end of a splay ----------

  /** The tree after SPLAY_ASSEMBLE. */
  ghost function Assembled(l: Ctx, t: Tree, r: Ctx): Tree
    requires t.Bin?
  {
    Bin(Plug(l, t.left), t.node, t.red, Plug(r, t.right))
  }

  function Assembly(m: Memory, node: Ref, left: Ref, right: Ref, root: Ref): Memory
    requires node in m && left in m && right in m && root in m
  {
    var m1 := m[left := m[left].(right := m[root].left)];
    var m2 := m1[right := m1[right].(left := m1[root].right)];
    var m3 := m2[root := m2[root].(left := m2[node].right)];
    m3[root := m3[root].(right := m3[node].left)]
  }

  lemma {:induction false} PlugDistinct(c: Ctx, t: Tree)
    requires CtxDistinct(c) && Distinct(t) && CtxNodes(c) !! Nodes(t)
    ensures Distinct(Plug(c, t)) && Nodes(Plug(c, t)) == CtxNodes(c) + Nodes(t)
    decreases c
  {
    match c
    case Top =>
    case InLeft(up, n, red, r) => PlugDistinct(up, Bin(t, n, red, r));
    case InRight(l, n, red, up) => PlugDistinct(up, Bin(l, n, red, t));
  }

  /** The first two assignments close the chains. */
  lemma CloseChains(m: Memory, node: Ref, l: Ctx, t: Tree, r: Ctx)
    requires Parts(m, node, l, t, r) && t.Bin?
    ensures Last(node, l) in m && Last(node, r) in m && t.node in m
    ensures var m1 := LinkedRight(m, m[t.node].left, Last(node, l));
            var m2 := LinkedLeft(m1, m[t.node].right, Last(node, r));
            && Tied(m2, Plug(l, t.left)) && m2[node].right == RootOf(Plug(l, t.left))
            && Tied(m2, Plug(r, t.right)) && m2[node].left == RootOf(Plug(r, t.right))
  {
    LeftLast(m, node, l);
    RightLast(m, node, r);
    TiedBin(m, t);
    var m1 := LinkedRight(m, m[t.node].left, Last(node, l));
    var m2 := LinkedLeft(m1, m[t.node].right, Last(node, r));
    TiedFrame(m, m2, t.left);
    TiedFrame(m, m2, t.right);
    LeftChainFrame(m, m2, node, l);
    RightChainFrame(m, m2, node, r);
    LeftChainClosed(m2, node, l, t.left);
    RightChainClosed(m2, node, r, t.right);
  }

  lemma AssembleParts(m: Memory, node: Ref, l: Ctx, t: Tree, r: Ctx)
    requires Parts(m, node, l, t, r) && t.Bin?
    ensures Last(node, l) in m && Last(node, r) in m && t.node in m
    ensures var m' := Assembly(m, node, Last(node, l), Last(node, r), t.node);
            Tied(m', Assembled(l, t, r)) && Distinct(Assembled(l, t, r))
    ensures Nodes(Assembled(l, t, r)) == CtxNodes(l) + Nodes(t) + CtxNodes(r)
  {
    hide Tied, Distinct, CtxDistinct, CtxNodes, Nodes, LeftChain, RightChain, Plug;
    CloseChains(m, node, l, t, r);
    TiedBin(m, t);
    PlugDistinct(l, t.left);
    PlugDistinct(r, t.right);
    LeftLast(m, node, l);
    RightLast(m, node, r);
    var m1 := LinkedRight(m, m[t.node].left, Last(node, l));
    var m2 := LinkedLeft(m1, m[t.node].right, Last(node, r));
    var m' := Assembly(m, node, Last(node, l), Last(node, r), t.node);
    TiedFrame(m2, m', Plug(l, t.left));
    TiedFrame(m2, m', Plug(r, t.right));
    TiedNode(m', Assembled(l, t, r));
    DistinctNode(Assembled(l, t, r));
  }

  lemma TiedNode(m: Memory, t: Tree)
    requires t.Bin? && t.node in m && m[t.node] == Links(RootOf(t.left), RootOf(t.right)) && Tied(m, t.left)
             && Tied(m, t.right)
    ensures Tied(m, t)
  {
  }

  lemma DistinctNode(t: Tree)
    requires t.Bin? && t.node.Elem? && Distinct(t.left) && Distinct(t.right)
    requires t.node !in Nodes(t.left) && t.node !in Nodes(t.right) && Nodes(t.left) !! Nodes(t.right)
    ensures Distinct(t) && Nodes(t) == Nodes(t.left) + {t.node} + Nodes(t.right)
  {
  }

  // ---------- One splay ----------

  /** Entries outside of the tree are kept; the entry of the temporary node is added. */
  ghost predicate Kept(m0: Memory, m: Memory, nodes: set<Ref>, node: Ref) {
    m.Keys == m0.Keys + {node} && forall x :: x in m0 && x !in nodes ==> m[x] == m0[x]
  }

  /** The loop invariant: a tree of `nodes`, with the elements `s` in order, in the memory `m0` is being splayed. */
  ghost predicate Going(m0: Memory, nodes: set<Ref>, s: seq<Ref>, k: int, node: Ref, m: Memory, l: Ctx, t: Tree,
                        r: Ctx) {
    && Parts(m, node, l, t, r) && t.Bin? && Spread(s, k, l, t, r)
    && CtxNodes(l) + Nodes(t) + CtxNodes(r) == nodes && node !in m0 && Kept(m0, m, nodes, node)
  }

  lemma NodesHas(t: Tree)
    requires t.Bin?
    ensures t.node in Nodes(t) && Nodes(t.left) <= Nodes(t) && Nodes(t.right) <= Nodes(t)
  {
  }

  lemma RotatedNodes(t: Tree)
    requires t.Bin?
    ensures t.left.Bin? ==> Nodes(RotatedRight(t)) == Nodes(t)
    ensures t.right.Bin? ==> Nodes(RotatedLeft(t)) == Nodes(t)
  {
  }

  /** One pass of the loop to the left: a rotation if the key is left of the left child too, and a link. */
  lemma RotateRightGoing(m0: Memory, nodes: set<Ref>, s: seq<Ref>, k: int, node: Ref, m: Memory, l: Ctx, t: Tree,
                         r: Ctx)
    requires Going(m0, nodes, s, k, node, m, l, t, r) && t.left.Bin?
    ensures t.node in m && t.left.node in m
    ensures Going(m0, nodes, s, k, node, RotatedRightLinks(m, t.node, t.left.node), l, RotatedRight(t), r)
  {
    hide LeftChain, RightChain, CtxDistinct, Distinct, Tied, InOrder, CtxNodes, Nodes, Before, After, Below, Above;
    RotateRightParts(m, node, l, t, r);
    RotatedInOrder(t);
    RotatedNodes(t);
    NodesHas(t);
    NodesHas(t.left);
  }

  lemma LinkLeftGoing(m0: Memory, nodes: set<Ref>, s: seq<Ref>, k: int, node: Ref, m: Memory, l: Ctx, t: Tree, r: Ctx)
    requires Going(m0, nodes, s, k, node, m, l, t, r) && t.left.Bin? && Sorted(s) && t.node.Elem? && k < t.node.key
    ensures Last(node, r) in m
    ensures Going(m0, nodes, s, k, node, LinkedLeft(m, t.node, Last(node, r)), l, t.left,
                  InLeft(r, t.node, t.red, t.right))
  {
    hide LeftChain, RightChain, CtxDistinct, Distinct, Tied, InOrder, Before, After, Below, Above, Spread, Sorted;
    LinkLeftParts(m, node, l, t, r);
    LinkLeftOrder(s, k, l, t, r);
    RightLast(m, node, r);
  }

  /** One pass of the loop to the right: a rotation if the key is right of the right child too, and a link. */
  lemma RotateLeftGoing(m0: Memory, nodes: set<Ref>, s: seq<Ref>, k: int, node: Ref, m: Memory, l: Ctx, t: Tree, r: Ctx)
    requires Going(m0, nodes, s, k, node, m, l, t, r) && t.right.Bin?
    ensures t.node in m && t.right.node in m
    ensures Going(m0, nodes, s, k, node, RotatedLeftLinks(m, t.node, t.right.node), l, RotatedLeft(t), r)
  {
    hide RightChain, LeftChain, CtxDistinct, Distinct, Tied, InOrder, CtxNodes, Nodes, After, Before, Above, Below;
    RotateLeftParts(m, node, l, t, r);
    RotatedInOrder(t);
    RotatedNodes(t);
    NodesHas(t);
    NodesHas(t.right);
  }

  lemma LinkRightGoing(m0: Memory, nodes: set<Ref>, s: seq<Ref>, k: int, node: Ref, m: Memory, l: Ctx, t: Tree, r: Ctx)
    requires Going(m0, nodes, s, k, node, m, l, t, r) && t.right.Bin? && Sorted(s) && t.node.Elem? && t.node.key < k
    ensures Last(node, l) in m
    ensures Going(m0, nodes, s, k, node, LinkedRight(m, t.node, Last(node, l)), InRight(t.left, t.node, t.red, l),
                  t.right, r)
  {
    hide RightChain, LeftChain, CtxDistinct, Distinct, Tied, InOrder, After, Before, Above, Below, Spread, Sorted;
    LinkRightParts(m, node, l, t, r);
    LinkRightOrder(s, k, l, t, r);
    LeftLast(m, node, l);
  }

  /** The loop ends at the key, or beside the place where it belongs. */
  ghost predicate Arrived(t: Tree, k: int) {
    t.Bin? && t.node.Elem? &&
    (t.node.key == k || (k < t.node.key && t.left.Leaf?) || (t.node.key < k && t.right.Leaf?))
  }

  /** The root parts the elements at `k`. */
  ghost predicate PartedAt(t: Tree, k: int) {
    t.Bin? && Below(InOrder(t.left), k) && Above(InOrder(t.right), k)
  }

  lemma ArrivedOrder(s: seq<Ref>, k: int, p: seq<Ref>, x: seq<Ref>, n: Ref, y: seq<Ref>, q: seq<Ref>)
    requires Sorted(s) && p + (x + [n] + y) + q == s && Below(p, k) && Above(q, k) && n.Elem?
    requires n.key == k || (k < n.key && x == []) || (n.key < k && y == [])
    ensures (p + x) + [n] + (y + q) == s && Below(p + x, k) && Above(y + q, k)
  {
    assert (p + x) + [n] + (y + q) == s;
    SortedAround(p + x, n, y + q);
    assert forall e :: e in x ==> e in p + x;
    assert forall e :: e in y ==> e in y + q;
  }

  lemma AssembleOrder(m: Memory, s: seq<Ref>, k: int, node: Ref, l: Ctx, t: Tree, r: Ctx)
    requires Sorted(s) && Spread(s, k, l, t, r) && LeftChain(m, node, l) && RightChain(m, node, r) && Arrived(t, k)
    ensures var u := Assembled(l, t, r);
            InOrder(u) == s && PartedAt(u, k)
  {
    hide InOrder, Before, After, Below, Above, Sorted, LeftChain, RightChain, Plug;
    var u := Assembled(l, t, r);
    InOrderBin(t);
    InOrderBin(u);
    PlugInOrder(l, t.left);
    PlugInOrder(r, t.right);
    LeftSides(m, node, l);
    RightSides(m, node, r);
    LeafOrder();
    ArrivedOrder(s, k, Before(l), InOrder(t.left), t.node, InOrder(t.right), After(r));
    assert Before(l) + InOrder(t.left) + [] == Before(l) + InOrder(t.left);
    assert [] + InOrder(t.right) + After(r) == InOrder(t.right) + After(r);
  }

  lemma LeafOrder()
    ensures InOrder(Leaf) == []
  {
  }

  lemma ArriveGoing(m0: Memory, nodes: set<Ref>, s: seq<Ref>, k: int, node: Ref, m: Memory, l: Ctx, t: Tree, r: Ctx)
    requires Going(m0, nodes, s, k, node, m, l, t, r) && Sorted(s) && Arrived(t, k)
    ensures Last(node, l) in m && Last(node, r) in m && t.node in m && node !in nodes && node !in m0
    ensures var m', u := Assembly(m, node, Last(node, l), Last(node, r), t.node), Assembled(l, t, r);
            && Tied(m', u) && Distinct(u) && Nodes(u) == nodes && Kept(m0, m', nodes, node) && Null !in m'
            && InOrder(u) == s && PartedAt(u, k)
  {
    hide LeftChain, RightChain, CtxDistinct, Distinct, Tied, InOrder, CtxNodes, Nodes, Before, After, Below, Above,
        Sorted;
    AssembleParts(m, node, l, t, r);
    AssembleOrder(m, s, k, node, l, t, r);
    LeftLast(m, node, l);
    RightLast(m, node, r);
    NodesHas(t);
  }

  /** What the links of the root say about the current tree. */
  lemma Look(m0: Memory, nodes: set<Ref>, s: seq<Ref>, k: int, node: Ref, m: Memory, l: Ctx, t: Tree, r: Ctx)
    requires Going(m0, nodes, s, k, node, m, l, t, r)
    ensures t.node in m && t.node.Elem? && m[t.node] == Links(RootOf(t.left), RootOf(t.right))
    ensures t.node != Last(node, l) && t.node != Last(node, r)
    ensures t.left.Bin? <==> RootOf(t.left) != Null
    ensures t.right.Bin? <==> RootOf(t.right) != Null
    ensures RootOf(t.left) != Null ==> RootOf(t.left).Elem? && RootOf(t.left) in m
    ensures RootOf(t.right) != Null ==> RootOf(t.right).Elem? && RootOf(t.right) in m
  {
    TiedBin(m, t);
  }

  /** The temporary node, on entry. */
  lemma Set(m0: Memory, node: Ref, t: Tree, k: int)
    requires Null !in m0 && Tied(m0, t) && Distinct(t) && t.Bin? && node.Elem? && node !in m0
    ensures Going(m0, Nodes(t), InOrder(t), k, node, m0[node := Links(Null, Null)], Top, t, Top)
  {
    var m := m0[node := Links(Null, Null)];
    TiedIn(m0, t);
    TiedWiden(m0, m, t);
    assert Before(Top) + InOrder(t) + After(Top) == InOrder(t);
  }

  lemma {:induction false} TiedIn(m: Memory, t: Tree)
    requires Tied(m, t)
    ensures Nodes(t) <= m.Keys
  {
    if t.Bin? {
      TiedIn(m, t.left);
      TiedIn(m, t.right);
    }
  }

  lemma {:induction false} TiedWiden(m: Memory, m': Memory, t: Tree)
    requires Tied(m, t) && forall x :: x in Nodes(t) && x in m ==> x in m' && m'[x] == m[x]
    ensures Tied(m', t)
  {
    if t.Bin? {
      TiedWiden(m, m', t.left);
      TiedWiden(m, m', t.right);
    }
  }

  class Head {
    var root: Ref
    var mem: Memory
    ghost var shape: Tree

    ghost predicate Valid()
      reads this
    {
      Null !in mem && root == RootOf(shape) && Tied(mem, shape) && Distinct(shape) && Sorted(InOrder(shape))
    }

    constructor ()
      ensures Valid() && InOrder(shape) == [] && mem == map[]
    {
      root := Null;
      mem := map[];
      shape := Leaf;
    }

    method RotateRight(tmp: Ref, ghost m0: Memory, ghost nodes: set<Ref>, ghost s: seq<Ref>, ghost k: int,
                       ghost node: Ref, ghost l: Ctx, ghost t: Tree, ghost r: Ctx)
      requires Going(m0, nodes, s, k, node, mem, l, t, r) && root == t.node && t.left.Bin? && tmp == t.left.node
      modifies this`root, this`mem
      ensures Going(m0, nodes, s, k, node, mem, l, RotatedRight(t), r) && root == tmp
    {
      hide Going;
      RotateRightGoing(m0, nodes, s, k, node, mem, l, t, r);
      mem := RotatedRightLinks(mem, root, tmp);
      root := tmp;
    }

    method LinkLeft(right: Ref, ghost m0: Memory, ghost nodes: set<Ref>, ghost s: seq<Ref>, ghost k: int,
                    ghost node: Ref, ghost l: Ctx, ghost t: Tree, ghost r: Ctx) returns (right': Ref)
      requires Going(m0, nodes, s, k, node, mem, l, t, r) && root == t.node && t.left.Bin? && right == Last(node, r)
      requires Sorted(s) && t.node.Elem? && k < t.node.key
      modifies this`root, this`mem
      ensures Going(m0, nodes, s, k, node, mem, l, t.left, InLeft(r, t.node, t.red, t.right))
      ensures right' == t.node && root == t.left.node
    {
      hide Going, Sorted;
      Look(m0, nodes, s, k, node, mem, l, t, r);
      LinkLeftGoing(m0, nodes, s, k, node, mem, l, t, r);
      mem := LinkedLeft(mem, root, right);
      right' := root;
      root := mem[root].left;
    }

    method RotateLeft(tmp: Ref, ghost m0: Memory, ghost nodes: set<Ref>, ghost s: seq<Ref>, ghost k: int,
                       ghost node: Ref, ghost l: Ctx, ghost t: Tree, ghost r: Ctx)
      requires Going(m0, nodes, s, k, node, mem, l, t, r) && root == t.node && t.right.Bin? && tmp == t.right.node
      modifies this`root, this`mem
      ensures Going(m0, nodes, s, k, node, mem, l, RotatedLeft(t), r) && root == tmp
    {
      hide Going;
      RotateLeftGoing(m0, nodes, s, k, node, mem, l, t, r);
      mem := RotatedLeftLinks(mem, root, tmp);
      root := tmp;
    }

    method LinkRight(left: Ref, ghost m0: Memory, ghost nodes: set<Ref>, ghost s: seq<Ref>, ghost k: int,
                    ghost node: Ref, ghost l: Ctx, ghost t: Tree, ghost r: Ctx) returns (left': Ref)
      requires Going(m0, nodes, s, k, node, mem, l, t, r) && root == t.node && t.right.Bin? && left == Last(node, l)
      requires Sorted(s) && t.node.Elem? && t.node.key < k
      modifies this`root, this`mem
      ensures Going(m0, nodes, s, k, node, mem, InRight(t.left, t.node, t.red, l), t.right, r)
      ensures left' == t.node && root == t.right.node
    {
      hide Going, Sorted;
      Look(m0, nodes, s, k, node, mem, l, t, r);
      LinkRightGoing(m0, nodes, s, k, node, mem, l, t, r);
      mem := LinkedRight(mem, root, left);
      left' := root;
      root := mem[root].right;
    }

    /** SPLAY_ASSEMBLE, after which the local node is gone. */
    method Assemble(left: Ref, right: Ref, ghost m0: Memory, ghost nodes: set<Ref>, ghost s: seq<Ref>, ghost k: int,
                    node: Ref, ghost l: Ctx, ghost t: Tree, ghost r: Ctx)
      requires Going(m0, nodes, s, k, node, mem, l, t, r) && root == t.node && Arrived(t, k) && Sorted(s)
      requires left == Last(node, l) && right == Last(node, r)
      modifies this
      ensures Valid() && InOrder(shape) == s && Nodes(shape) == nodes && PartedAt(shape, k)
      ensures mem.Keys == m0.Keys && Apart(m0, mem, nodes)
    {
      hide Going, Tied, Distinct, Nodes, InOrder, Sorted, Below, Above;
      ArriveGoing(m0, nodes, s, k, node, mem, l, t, r);
      mem := Assembly(mem, node, left, right, root);
      shape := Assembled(l, t, r);
      ghost var m1 := mem;
      mem := mem - {node};
      TiedWiden(m1, mem, shape);
    }

    /** SPLAY; `node` is the address of its local node. The elements keep their order, and the root parts them
        at the key: it is the element with the key if there is one, and otherwise a neighbour of the key. */
    method Splay(elm: Ref, node: Ref)
      requires Valid() && root != Null && elm.Elem? && node.Elem? && node !in mem
      modifies this
      ensures Valid() && InOrder(shape) == old(InOrder(shape)) && Nodes(shape) == old(Nodes(shape))
      ensures PartedAt(shape, elm.key)
      ensures mem.Keys == old(mem.Keys) && Apart(old(mem), mem, old(Nodes(shape)))
    {
      hide Going, Tied, Distinct, Nodes, InOrder, Sorted, Below, Above, PartedAt;
      ghost var m0, s, nodes, k := mem, InOrder(shape), Nodes(shape), elm.key;
      ghost var l, t, r := Top, shape, Top;
      Set(mem, node, shape, k);
      mem := mem[node := Links(Null, Null)];
      var left, right := node, node;
      Look(m0, nodes, s, k, node, mem, l, t, r);
      while elm.key != root.key
        invariant Going(m0, nodes, s, k, node, mem, l, t, r) && t.Bin? && root == t.node && root.Elem?
        invariant left == Last(node, l) && right == Last(node, r)
        decreases t
      {
        Look(m0, nodes, s, k, node, mem, l, t, r);
        if elm.key < root.key {
          var tmp := mem[root].left;
          if tmp == Null {
            break;
          }
          if elm.key < tmp.key {
            RotateRight(tmp, m0, nodes, s, k, node, l, t, r);
            t := RotatedRight(t);
            Look(m0, nodes, s, k, node, mem, l, t, r);
            if mem[root].left == Null {
              break;
            }
          }
          right := LinkLeft(right, m0, nodes, s, k, node, l, t, r);
          t, r := t.left, InLeft(r, t.node, t.red, t.right);
        } else {
          var tmp := mem[root].right;
          if tmp == Null {
            break;
          }
          if elm.key > tmp.key {
            RotateLeft(tmp, m0, nodes, s, k, node, l, t, r);
            t := RotatedLeft(t);
            Look(m0, nodes, s, k, node, mem, l, t, r);
            if mem[root].right == Null {
              break;
            }
          }
          left := LinkRight(left, m0, nodes, s, k, node, l, t, r);
          l, t := InRight(t.left, t.node, t.red, l), t.right;
        }
        Look(m0, nodes, s, k, node, mem, l, t, r);
      }
      Assemble(left, right, m0, nodes, s, k, node, l, t, r);
    }

    /** SPLAY_FIND. */
    method Find(elm: Ref, node: Ref) returns (r: Ref)
      requires Valid() && elm.Elem? && node.Elem? && node !in mem
      modifies this
      ensures Valid() && InOrder(shape) == old(InOrder(shape))
      ensures r == Null <==> forall x :: x in InOrder(shape) ==> x.key != elm.key
      ensures r != Null ==> r in InOrder(shape) && r.key == elm.key
      ensures mem.Keys == old(mem.Keys) && Apart(old(mem), mem, old(Nodes(shape)))
    {
      hide Tied, Distinct, Nodes, InOrder;
      LeafOrder();
      RootLeaf(shape);
      if root == Null {
        return Null;
      }
      Splay(elm, node);
      Parted(shape, elm.key);
      if elm.key == root.key {
        return root;
      }
      return Null;
    }

    /** SPLAY_INSERT. */
    method Insert(elm: Ref, node: Ref) returns (r: Ref)
      requires Valid() && elm.Elem? && node.Elem? && node !in mem
      modifies this
      ensures Valid()
      ensures r == Null <==> forall x :: x in old(InOrder(shape)) ==> x.key != elm.key
      ensures r != Null ==> r in InOrder(shape) && r.key == elm.key && InOrder(shape) == old(InOrder(shape))
      ensures r == Null ==> exists a, b :: a + b == old(InOrder(shape)) && InOrder(shape) == a + [elm] + b
      ensures mem.Keys == old(mem.Keys) + (if r == Null then {elm} else {})
      ensures Apart(old(mem), mem, old(Nodes(shape)) + {elm})
    {
      hide Tied, Distinct, Nodes, InOrder, Below, Above, Sorted;
      ghost var t := Leaf;
      RootLeaf(shape);
      if root == Null {
        LeafOrder();
        mem := mem[elm := Links(Null, Null)];
        PlantedRoot(mem, elm);
        assert [] + [] == old(InOrder(shape)) && InOrder(Bin(Leaf, elm, false, Leaf)) == [] + [elm] + [];
        shape := Bin(Leaf, elm, false, Leaf);
      } else {
        Splay(elm, node);
        Parted(shape, elm.key);
        TiedBin(mem, shape);
        NodesHas(shape);
        if elm.key < root.key {
          PlantLeft(mem, shape, elm);
          mem := PlantedLeft(mem, root, elm);
          shape := Bin(shape.left, elm, false, shape.(left := Leaf));
        } else if elm.key > root.key {
          PlantRight(mem, shape, elm);
          mem := PlantedRight(mem, root, elm);
          shape := Bin(shape.(right := Leaf), elm, false, shape.right);
        } else {
          return root;
        }
      }
      root := elm;
      return Null;
    }

    /** SPLAY_REMOVE: the stored element with the key of `elm` goes, and no other. */
    method Remove(elm: Ref, node: Ref) returns (r: Ref)
      requires Valid() && elm.Elem? && node.Elem? && node !in mem
      modifies this
      ensures Valid()
      ensures r == Null <==> forall x :: x in old(InOrder(shape)) ==> x.key != elm.key
      ensures r == Null ==> InOrder(shape) == old(InOrder(shape))
      ensures r != Null ==> r == elm && exists a, x: Ref, b ::
                && x.Elem? && x.key == elm.key && (x == elm <==> elm in old(InOrder(shape)))
                && old(InOrder(shape)) == a + [x] + b && InOrder(shape) == a + b
      ensures mem.Keys == old(mem.Keys) && Apart(old(mem), mem, old(Nodes(shape)))
    {
      hide Tied, Distinct, Nodes, InOrder, Below, Above, Sorted, Apart;
      RootLeaf(shape);
      if root == Null {
        LeafOrder();
        ApartSame(mem, Nodes(shape));
        return Null;
      }
      Splay(elm, node);
      Parted(shape, elm.key);
      if elm.key == root.key {
        InOrderBin(shape);
        SameKey(shape, elm);
        ghost var m, own := mem, Nodes(shape);
        RemoveRoot(elm, node);
        ApartThen(old(mem), m, mem, own, own);
        return elm;
      }
      return Null;
    }

    /** The element at the root goes, which has the key of `elm`. */
    method RemoveRoot(elm: Ref, node: Ref)
      requires Valid() && root != Null && elm.Elem? && node.Elem? && node !in mem
      requires PartedAt(shape, elm.key) && root.key == elm.key
      modifies this
      ensures Valid() && InOrder(shape) == old(InOrder(shape.left) + InOrder(shape.right))
      ensures mem.Keys == old(mem.Keys) && Apart(old(mem), mem, old(Nodes(shape)))
    {
      hide Tied, Distinct, Nodes, InOrder, Below, Above, Sorted, Apart;
      ghost var t, own := shape, Nodes(shape);
      TiedBin(mem, t);
      InOrderBin(t);
      SortedAround(InOrder(t.left), t.node, InOrder(t.right));
      if mem[root].left == Null {
        root := mem[root].right;
        shape := t.right;
        RootLeaf(t.left);
        LeafOrder();
        assert [] + InOrder(t.right) == InOrder(t.right);
        ApartSame(mem, own);
      } else {
        var tmp := mem[root].right;
        root := mem[root].left;
        shape := t.left;
        SortedPrefix(InOrder(t.left), InOrder(t.right));
        Splay(elm, node);
        TiedApart(old(mem), mem, t.right, Nodes(t.left));
        MaxRoot(shape, elm.key);
        NodesHas(shape);
        Hang(mem, shape, t.right);
        ApartSame(old(mem), own);
        ApartThen(old(mem), old(mem), mem, own, Nodes(t.left));
        ApartUpdate(old(mem), mem, own, root, mem[root].(right := tmp));
        mem := mem[root := mem[root].(right := tmp)];
        shape := shape.(right := t.right);
      }
    }

    /** SPLAY_MINMAX with a value other than 0, from which the loop would not return: the least element comes
        to the root, or the greatest. */
    method MinMax(comp: int, node: Ref)
      requires Valid() && root != Null && comp != 0 && node.Elem? && node !in mem
      modifies this
      ensures Valid() && InOrder(shape) == old(InOrder(shape)) && InOrder(shape) != []
      ensures root == if comp < 0 then InOrder(shape)[0] else InOrder(shape)[|InOrder(shape)| - 1]
      ensures mem.Keys == old(mem.Keys) && Apart(old(mem), mem, old(Nodes(shape)))
    {
      hide Going, Tied, Distinct, Nodes, InOrder, Below, Above;
      ghost var m0, s, nodes := mem, InOrder(shape), Nodes(shape);
      InOrderBin(shape);
      ghost var l, t, r, k := Top, shape, Top, Beyond(s, comp);
      Set(mem, node, shape, k);
      mem := mem[node := Links(Null, Null)];
      var left, right := node, node;
      Look(m0, nodes, s, k, node, mem, l, t, r);
      while true
        invariant Going(m0, nodes, s, k, node, mem, l, t, r) && t.Bin? && root == t.node && root.Elem?
        invariant left == Last(node, l) && right == Last(node, r)
        decreases t
      {
        Look(m0, nodes, s, k, node, mem, l, t, r);
        RootBeyond(m0, nodes, s, comp, k, node, mem, l, t, r);
        if comp < 0 {
          var tmp := mem[root].left;
          if tmp == Null {
            break;
          }
          RotateRight(tmp, m0, nodes, s, k, node, l, t, r);
          t := RotatedRight(t);
          Look(m0, nodes, s, k, node, mem, l, t, r);
          RootBeyond(m0, nodes, s, comp, k, node, mem, l, t, r);
          if mem[root].left == Null {
            break;
          }
          right := LinkLeft(right, m0, nodes, s, k, node, l, t, r);
          t, r := t.left, InLeft(r, t.node, t.red, t.right);
        } else {
          var tmp := mem[root].right;
          if tmp == Null {
            break;
          }
          RotateLeft(tmp, m0, nodes, s, k, node, l, t, r);
          t := RotatedLeft(t);
          Look(m0, nodes, s, k, node, mem, l, t, r);
          RootBeyond(m0, nodes, s, comp, k, node, mem, l, t, r);
          if mem[root].right == Null {
            break;
          }
          left := LinkRight(left, m0, nodes, s, k, node, l, t, r);
          l, t := InRight(t.left, t.node, t.red, l), t.right;
        }
        Look(m0, nodes, s, k, node, mem, l, t, r);
      }
      Assemble(left, right, m0, nodes, s, k, node, l, t, r);
      EndRoot(shape, s, comp);
    }

    /** SPLAY_NEXT. */
    method Next(elm: Ref, node: Ref) returns (r: Ref)
      requires Valid() && elm in InOrder(shape) && node.Elem? && node !in mem
      modifies this
      ensures Valid() && InOrder(shape) == old(InOrder(shape)) && Successor(InOrder(shape), elm, r)
      ensures mem.Keys == old(mem.Keys) && Apart(old(mem), mem, old(Nodes(shape)))
    {
      hide Tied, Distinct, Nodes, InOrder;
      InThere(shape, elm);
      Splay(elm, node);
      InThere(shape, elm);
      Parted(shape, elm.key);
      TiedBin(mem, shape);
      InOrderBin(shape);
      RootIs(shape, elm);
      RootLeaf(shape.right);
      LeafOrder();
      ghost var a, b := InOrder(shape.left), InOrder(shape.right);
      SuccessorAt(a, elm, b);
      if mem[elm].right != Null {
        r := Leftmost(mem[elm].right, shape.right);
      } else {
        r := Null;
      }
    }

    /** The inner loop of SPLAY_NEXT. */
    method Leftmost(elm: Ref, ghost t: Tree) returns (r: Ref)
      requires Tied(mem, t) && Distinct(t) && t.Bin? && t.node == elm
      ensures InOrder(t) != [] && r == InOrder(t)[0]
    {
      hide Tied, Distinct, Nodes, InOrder;
      r := elm;
      ghost var u, rest := t, [];
      TiedBin(mem, u);
      RootLeaf(u.left);
      while mem[r].left != Null
        invariant u.Bin? && r == u.node && Tied(mem, u) && Distinct(u) && InOrder(t) == InOrder(u) + rest && r in mem
        invariant mem[r] == Links(RootOf(u.left), RootOf(u.right)) && (RootOf(u.left) == Null <==> u.left.Leaf?)
        decreases u
      {
        r := mem[r].left;
        InOrderBin(u);
        TiedBin(mem, u);
        rest := [u.node] + InOrder(u.right) + rest;
        u := u.left;
        TiedBin(mem, u);
        RootLeaf(u.left);
      }
      InOrderBin(u);
      LeafOrder();
    }
  }

  lemma RootIn(t: Tree)
    ensures t.Bin? ==> t.node in InOrder(t)
  {
  }

  lemma InThere(t: Tree, elm: Ref)
    requires elm in InOrder(t) && Distinct(t)
    ensures elm.Elem? && t.Bin? && t.node.Elem?
  {
    NodesInOrder(t);
    AllElems(t);
  }

  lemma {:induction false} AllElems(t: Tree)
    requires Distinct(t)
    ensures forall x :: x in Nodes(t) ==> x.Elem?
  {
    if t.Bin? {
      AllElems(t.left);
      AllElems(t.right);
    }
  }

  /** The stored element with the key of `elm` is `elm` itself exactly if `elm` is stored. */
  lemma SameKey(t: Tree, elm: Ref)
    requires Sorted(InOrder(t)) && elm.Elem? && t.Bin? && t.node.Elem? && t.node.key == elm.key
    ensures t.node == elm <==> elm in InOrder(t)
  {
    if elm in InOrder(t) {
      RootIs(t, elm);
    }
    RootIn(t);
  }

  lemma RootIs(t: Tree, elm: Ref)
    requires Sorted(InOrder(t)) && elm in InOrder(t) && elm.Elem? && t.Bin? && t.node.Elem? && t.node.key == elm.key
    ensures t.node == elm
  {
    InOrderBin(t);
    SortedAround(InOrder(t.left), t.node, InOrder(t.right));
  }

  /** A key left or right of all elements. */
  ghost function Beyond(s: seq<Ref>, comp: int): int
    requires s != [] && s[0].Elem? && s[|s| - 1].Elem?
  {
    if comp < 0 then s[0].key - 1 else s[|s| - 1].key + 1
  }

  lemma RootBeyond(m0: Memory, nodes: set<Ref>, s: seq<Ref>, comp: int, k: int, node: Ref, m: Memory, l: Ctx, t: Tree,
                   r: Ctx)
    requires Sorted(s) && s != [] && k == Beyond(s, comp) && Going(m0, nodes, s, k, node, m, l, t, r)
    ensures t.node.Elem? && if comp < 0 then k < t.node.key else t.node.key < k
  {
    hide Before, After, Parts, Kept, Below, Above;
    InOrderBin(t);
    assert t.node in InOrder(t);
    assert t.node in Before(l) + InOrder(t) + After(r);
  }

  lemma EndRoot(t: Tree, s: seq<Ref>, comp: int)
    requires Sorted(s) && s != [] && s == InOrder(t) && PartedAt(t, Beyond(s, comp))
    ensures t.node == if comp < 0 then s[0] else s[|s| - 1]
  {
    InOrderBin(t);
    var a, b := InOrder(t.left), InOrder(t.right);
    assert forall i :: 0 <= i < |a| ==> a[i] in a;
    assert forall i :: 0 <= i < |b| ==> b[i] in b;
  }

  lemma RootLeaf(t: Tree)
    requires Distinct(t)
    ensures RootOf(t) == Null <==> t.Leaf?
  {
  }

  lemma SortedPrefix(a: seq<Ref>, b: seq<Ref>)
    requires Sorted(a + b)
    ensures Sorted(a)
  {
    assert forall i :: 0 <= i < |a| ==> a[i] == (a + b)[i];
  }

  /** After a splay with a key above all elements, the root has no right child. */
  lemma MaxRoot(t: Tree, k: int)
    requires PartedAt(t, k) && Below(InOrder(t), k)
    ensures t.right.Leaf?
  {
    InOrderBin(t);
    RootIn(t.right);
  }

  /** A tree hung below the root on the right. */
  lemma Hang(m: Memory, t: Tree, u: Tree)
    requires Tied(m, t) && Distinct(t) && t.Bin? && t.right.Leaf? && Tied(m, u) && Distinct(u) && Nodes(t) !! Nodes(u)
    ensures t.node in m
    ensures var m', v := m[t.node := m[t.node].(right := RootOf(u))], t.(right := u);
            Tied(m', v) && Distinct(v) && InOrder(v) == InOrder(t) + InOrder(u)
  {
    hide Tied, Distinct, Nodes, InOrder;
    TiedBin(m, t);
    var m', v := m[t.node := m[t.node].(right := RootOf(u))], t.(right := u);
    TiedFrame(m, m', t.left);
    TiedFrame(m, m', u);
    TiedNode(m', v);
    DistinctNode(v);
    InOrderBin(t);
    InOrderBin(v);
    LeafOrder();
    assert InOrder(t.left) + [t.node] + [] == InOrder(t.left) + [t.node];
  }

  /** What the place of the root says about the key. */
  lemma Parted(t: Tree, k: int)
    requires PartedAt(t, k) && Distinct(t)
    ensures t.node.Elem? && t.node in InOrder(t)
    ensures t.node.key == k <==> exists x :: x in InOrder(t) && x.Elem? && x.key == k
    ensures forall x :: x in InOrder(t) ==> x.Elem?
  {
  }

  /** No element lies between the key and the root. */
  lemma Nearest(t: Tree, k: int, x: Ref)
    requires PartedAt(t, k) && Distinct(t) && Sorted(InOrder(t)) && x in InOrder(t) && x != t.node
    ensures x.Elem? && t.node.Elem?
    ensures (x.key < k && x.key < t.node.key) || (k < x.key && t.node.key < x.key)
  {
    Parted(t, k);
    InOrderBin(t);
    SortedAround(InOrder(t.left), t.node, InOrder(t.right));
  }

  lemma PlantedRoot(m: Memory, elm: Ref)
    requires elm.Elem? && elm in m && m[elm] == Links(Null, Null)
    ensures var t := Bin(Leaf, elm, false, Leaf);
            Tied(m, t) && Distinct(t) && InOrder(t) == [elm] && Sorted(InOrder(t))
  {
  }

  /** The links of a new root whose right subtree is the old root. */
  function PlantedLeft(m: Memory, root: Ref, elm: Ref): Memory
    requires root in m
  {
    var m1 := m[elm := Links(m[root].left, root)];
    m1[root := m1[root].(left := Null)]
  }

  function PlantedRight(m: Memory, root: Ref, elm: Ref): Memory
    requires root in m
  {
    var m1 := m[elm := Links(root, m[root].right)];
    m1[root := m1[root].(right := Null)]
  }

  lemma {:induction false} NewElement(t: Tree, elm: Ref)
    requires elm.Elem? && forall x :: x in InOrder(t) ==> x.Elem? && x.key != elm.key
    ensures elm !in Nodes(t)
  {
    NodesInOrder(t);
  }

  lemma PlantLeft(m: Memory, t: Tree, elm: Ref)
    requires Null !in m && Tied(m, t) && Distinct(t) && Sorted(InOrder(t)) && elm.Elem? && PartedAt(t, elm.key)
    requires t.node.Elem? && elm.key < t.node.key
    ensures t.node in m
    ensures var u, m' := Bin(t.left, elm, false, t.(left := Leaf)), PlantedLeft(m, t.node, elm);
            Tied(m', u) && Distinct(u) && Sorted(InOrder(u)) && Null !in m' &&
            exists a, b :: a + b == InOrder(t) && InOrder(u) == a + [elm] + b
  {
    hide Tied, Distinct, Nodes, InOrder, Below, Above, Sorted;
    TiedBin(m, t);
    var u, m' := Bin(t.left, elm, false, t.(left := Leaf)), PlantedLeft(m, t.node, elm);
    Parted(t, elm.key);
    NewElement(t, elm);
    TiedWiden(m, m', t.left);
    TiedWiden(m, m', t.right);
    LeafTied(m');
    TiedNode(m', u.right);
    TiedNode(m', u);
    DistinctNode(u.right);
    DistinctNode(u);
    InOrderBin(t);
    InOrderBin(u);
    InOrderBin(u.right);
    LeafOrder();
    var a, b := InOrder(t.left), [t.node] + InOrder(t.right);
    Planted(a, t.node, InOrder(t.right), elm);
    assert a + b == InOrder(t) && InOrder(u) == a + [elm] + b;
  }

  lemma PlantRight(m: Memory, t: Tree, elm: Ref)
    requires Null !in m && Tied(m, t) && Distinct(t) && Sorted(InOrder(t)) && elm.Elem? && PartedAt(t, elm.key)
    requires t.node.Elem? && t.node.key < elm.key
    ensures t.node in m
    ensures var u, m' := Bin(t.(right := Leaf), elm, false, t.right), PlantedRight(m, t.node, elm);
            Tied(m', u) && Distinct(u) && Sorted(InOrder(u)) && Null !in m' &&
            exists a, b :: a + b == InOrder(t) && InOrder(u) == a + [elm] + b
  {
    hide Tied, Distinct, Nodes, InOrder, Below, Above, Sorted;
    TiedBin(m, t);
    var u, m' := Bin(t.(right := Leaf), elm, false, t.right), PlantedRight(m, t.node, elm);
    Parted(t, elm.key);
    NewElement(t, elm);
    TiedWiden(m, m', t.left);
    TiedWiden(m, m', t.right);
    LeafTied(m');
    TiedNode(m', u.left);
    TiedNode(m', u);
    DistinctNode(u.left);
    DistinctNode(u);
    InOrderBin(t);
    InOrderBin(u);
    InOrderBin(u.left);
    LeafOrder();
    var a, b := InOrder(t.left) + [t.node], InOrder(t.right);
    Planted(InOrder(t.left), t.node, b, elm);
    assert a + [] == a && InOrder(u) == a + [elm] + b;
  }

  lemma LeafTied(m: Memory)
    ensures Tied(m, Leaf) && Distinct(Leaf) && Nodes(Leaf) == {}
  {
  }

  lemma Planted(a: seq<Ref>, n: Ref, b: seq<Ref>, elm: Ref)
    requires Sorted(a + [n] + b) && elm.Elem? && n.Elem? && Below(a, elm.key) && Above(b, elm.key)
    ensures elm.key < n.key ==> a + ([n] + b) == a + [n] + b && Sorted(a + [elm] + ([n] + b)) && [] + [n] + b == [n] + b
    ensures n.key < elm.key ==> Sorted((a + [n]) + [elm] + b)
  {
    if elm.key < n.key {
      assert a + ([n] + b) == a + [n] + b;
      SortedAround(a, elm, [n] + b);
    }
    if n.key < elm.key {
      assert (a + [n]) + b == a + [n] + b;
      SortedAround(a + [n], elm, b);
    }
  }

  /** SPLAY_REMOVE with an element that is not stored, but whose key is: the stored element goes, and the other one is
      returned. */
  method RemoveAnother() returns (stored: Ref, r: Ref, empty: bool)
    ensures stored == Elem(0, 5) && r == Elem(1, 5) && empty
  {
    var h := new Head();
    stored := Elem(0, 5);
    LeafOrder();
    var added := h.Insert(stored, Elem(2, 0));
    ghost var a, b :| a + b == [] && InOrder(h.shape) == a + [stored] + b;
    assert InOrder(h.shape) == [stored];
    assert stored in InOrder(h.shape);
    r := h.Remove(Elem(1, 5), Elem(2, 0));
    RootLeaf(h.shape);
    OnlyLeaf(h.shape);
    empty := h.root == Null;
  }

  lemma OnlyLeaf(t: Tree)
    ensures InOrder(t) == [] <==> t.Leaf?
  {
  }
}
