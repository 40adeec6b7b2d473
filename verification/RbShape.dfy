/** The shape of a red-black tree: an inductive picture of the linked nodes, split at any
    point into a subtree and the context above it, and the facts that concern the picture alone. */
module RbShape {
  import opened Pointers
  import opened Powers

  datatype Tree = Leaf | Bin(left: Tree, node: Ref, red: bool, right: Tree)

  /** The tree around a hole: the path from the hole up to the root. */
  datatype Ctx =
    | Top
    | InLeft(up: Ctx, node: Ref, red: bool, right: Tree)
    | InRight(left: Tree, node: Ref, red: bool, up: Ctx)

  ghost function RootOf(t: Tree): Ref {
    if t.Leaf? then Null else t.node
  }

  ghost function ParentOf(c: Ctx): Ref {
    if c.Top? then Null else c.node
  }

  ghost function Nodes(t: Tree): set<Ref> {
    match t
    case Leaf => {}
    case Bin(l, n, _, r) => Nodes(l) + {n} + Nodes(r)
  }

  ghost function CtxNodes(c: Ctx): set<Ref> {
    match c
    case Top => {}
    case InLeft(up, n, _, r) => CtxNodes(up) + {n} + Nodes(r)
    case InRight(l, n, _, up) => CtxNodes(up) + {n} + Nodes(l)
  }

  ghost predicate Distinct(t: Tree) {
    match t
    case Leaf => true
    case Bin(l, n, _, r) =>
      && n.Elem? && Distinct(l) && Distinct(r)
      && n !in Nodes(l) && n !in Nodes(r) && Nodes(l) !! Nodes(r)
  }

  ghost predicate CtxDistinct(c: Ctx) {
    match c
    case Top => true
    case InLeft(up, n, _, r) =>
      && n.Elem? && CtxDistinct(up) && Distinct(r)
      && n !in CtxNodes(up) && n !in Nodes(r) && Nodes(r) !! CtxNodes(up)
    case InRight(l, n, _, up) =>
      && n.Elem? && CtxDistinct(up) && Distinct(l)
      && n !in CtxNodes(up) && n !in Nodes(l) && Nodes(l) !! CtxNodes(up)
  }

  ghost function Plug(c: Ctx, t: Tree): Tree {
    match c
    case Top => t
    case InLeft(up, n, red, r) => Plug(up, Bin(t, n, red, r))
    case InRight(l, n, red, up) => Plug(up, Bin(l, n, red, t))
  }

  /** One step of Plug. */
  ghost function Fill(c: Ctx, t: Tree): Tree
    requires !c.Top?
  {
    match c
    case InLeft(_, n, red, r) => Bin(t, n, red, r)
    case InRight(l, n, red, _) => Bin(l, n, red, t)
  }

  ghost function Sibling(c: Ctx): Tree
    requires !c.Top?
  {
    if c.InLeft? then c.right else c.left
  }

  ghost function WithSibling(c: Ctx, s: Tree): Ctx
    requires !c.Top?
  {
    if c.InLeft? then c.(right := s) else c.(left := s)
  }

  ghost function Depth(c: Ctx): nat {
    if c.Top? then 0 else 1 + Depth(c.up)
  }

  ghost function Append(inner: Ctx, outer: Ctx): Ctx {
    match inner
    case Top => outer
    case InLeft(up, n, red, r) => InLeft(Append(up, outer), n, red, r)
    case InRight(l, n, red, up) => InRight(l, n, red, Append(up, outer))
  }

  lemma {:induction false} FocusOn(t: Tree, n: Ref) returns (c: Ctx, s: Tree)
    requires n in InOrder(t)
    ensures Plug(c, s) == t && s.Bin? && s.node == n
  {
    var d: Ctx;
    if t.node == n {
      c, s := Top, t;
    } else if n in InOrder(t.left) {
      d, s := FocusOn(t.left, n);
      c := Append(d, InLeft(Top, t.node, t.red, t.right));
      PlugAppend(d, InLeft(Top, t.node, t.red, t.right), s);
    } else {
      d, s := FocusOn(t.right, n);
      c := Append(d, InRight(t.left, t.node, t.red, Top));
      PlugAppend(d, InRight(t.left, t.node, t.red, Top), s);
    }
  }

  // ---------- The in-order sequence ----------

  ghost function InOrder(t: Tree): seq<Ref> {
    match t
    case Leaf => []
    case Bin(l, n, _, r) => InOrder(l) + [n] + InOrder(r)
  }

  ghost function Before(c: Ctx): seq<Ref> {
    match c
    case Top => []
    case InLeft(up, _, _, _) => Before(up)
    case InRight(l, n, _, up) => Before(up) + InOrder(l) + [n]
  }

  ghost function After(c: Ctx): seq<Ref> {
    match c
    case Top => []
    case InLeft(up, n, _, r) => [n] + InOrder(r) + After(up)
    case InRight(_, _, _, up) => After(up)
  }

  ghost function Whole(c: Ctx, t: Tree): seq<Ref> {
    Before(c) + InOrder(t) + After(c)
  }

  ghost predicate Sorted(s: seq<Ref>) {
    && (forall i :: 0 <= i < |s| ==> s[i].Elem?)
    && forall i, j :: 0 <= i < j < |s| ==> s[i].key < s[j].key
  }

  lemma FillWhole(c: Ctx, t: Tree)
    requires !c.Top?
    ensures Whole(c.up, Fill(c, t)) == Whole(c, t)
  {
    match c
    case InLeft(up, n, _, r) =>
      assert InOrder(Fill(c, t)) + After(up) == InOrder(t) + After(c);
    case InRight(l, n, _, up) =>
      assert Before(up) + InOrder(Fill(c, t)) == Before(c) + InOrder(t);
  }

  lemma {:induction false} PlugInOrder(c: Ctx, t: Tree)
    ensures InOrder(Plug(c, t)) == Whole(c, t)
    decreases c
  {
    if !c.Top? {
      PlugInOrder(c.up, Fill(c, t));
      FillWhole(c, t);
    }
  }

  lemma {:induction false} NodesInOrder(t: Tree)
    ensures forall n :: n in InOrder(t) <==> n in Nodes(t)
  {
    match t
    case Leaf =>
    case Bin(l, n, _, r) =>
      NodesInOrder(l);
      NodesInOrder(r);
  }

  lemma {:induction false} PlugNodes(c: Ctx, t: Tree)
    ensures Nodes(Plug(c, t)) == CtxNodes(c) + Nodes(t)
    decreases c
  {
    match c
    case Top =>
    case InLeft(up, n, red, r) => PlugNodes(up, Bin(t, n, red, r));
    case InRight(l, n, red, up) => PlugNodes(up, Bin(l, n, red, t));
  }

  lemma {:induction false} PlugAppend(inner: Ctx, outer: Ctx, t: Tree)
    ensures Plug(Append(inner, outer), t) == Plug(outer, Plug(inner, t))
    decreases inner
  {
    match inner
    case Top =>
    case InLeft(up, n, red, r) => PlugAppend(up, outer, Bin(t, n, red, r));
    case InRight(l, n, red, up) => PlugAppend(up, outer, Bin(l, n, red, t));
  }

  lemma {:induction false} AppendTop(c: Ctx)
    ensures Append(c, Top) == c
  {
    match c
    case Top =>
    case InLeft(up, _, _, _) => AppendTop(up);
    case InRight(_, _, _, up) => AppendTop(up);
  }

  // ---------- Rotations ----------

  ghost function RotatedLeft(t: Tree): Tree
    requires t.Bin? && t.right.Bin?
  {
    Bin(Bin(t.left, t.node, t.red, t.right.left), t.right.node, t.right.red, t.right.right)
  }

  ghost function RotatedRight(t: Tree): Tree
    requires t.Bin? && t.left.Bin?
  {
    Bin(t.left.left, t.left.node, t.left.red, Bin(t.left.right, t.node, t.red, t.right))
  }

  lemma RegroupRotated(a: seq<Ref>, x: Ref, b: seq<Ref>, y: Ref, d: seq<Ref>)
    ensures (a + [x] + b) + [y] + d == a + [x] + (b + [y] + d)
  {
  }

  lemma RotatedInOrder(t: Tree)
    requires t.Bin?
    ensures t.right.Bin? ==> InOrder(RotatedLeft(t)) == InOrder(t)
    ensures t.left.Bin? ==> InOrder(RotatedRight(t)) == InOrder(t)
  {
    hide InOrder;
    InOrderBin(t);
    if t.right.Bin? {
      InOrderBin(t.right);
      InOrderBin(RotatedLeft(t));
      InOrderBin(RotatedLeft(t).left);
      RegroupRotated(InOrder(t.left), t.node, InOrder(t.right.left), t.right.node, InOrder(t.right.right));
    }
    if t.left.Bin? {
      InOrderBin(t.left);
      InOrderBin(RotatedRight(t));
      InOrderBin(RotatedRight(t).right);
      RegroupRotated(InOrder(t.left.left), t.left.node, InOrder(t.left.right), t.node, InOrder(t.right));
    }
  }

  // ---------- Balance ----------

  ghost predicate IsRed(t: Tree) {
    t.Bin? && t.red
  }

  ghost function Black(red: bool): nat {
    if red then 0 else 1
  }

  /** The number of black nodes on the left-most path; on every path, when Balanced. */
  ghost function BlackHeight(t: Tree): nat {
    match t
    case Leaf => 0
    case Bin(l, _, red, _) => BlackHeight(l) + Black(red)
  }

  ghost predicate Balanced(t: Tree) {
    match t
    case Leaf => true
    case Bin(l, _, _, r) => Balanced(l) && Balanced(r) && BlackHeight(l) == BlackHeight(r)
  }

  ghost predicate NoRedRed(t: Tree) {
    match t
    case Leaf => true
    case Bin(l, _, red, r) => NoRedRed(l) && NoRedRed(r) && (red ==> !IsRed(l) && !IsRed(r))
  }

  ghost predicate RedBlack(t: Tree) {
    Balanced(t) && NoRedRed(t) && !IsRed(t)
  }

  /** The context is balanced around a subtree of black height `h`. */
  ghost predicate CtxBalanced(c: Ctx, h: nat) {
    match c
    case Top => true
    case InLeft(up, _, red, r) => Balanced(r) && BlackHeight(r) == h && CtxBalanced(up, h + Black(red))
    case InRight(l, _, red, up) => Balanced(l) && BlackHeight(l) == h && CtxBalanced(up, h + Black(red))
  }

  ghost predicate BlackAbove(c: Ctx) {
    !c.Top? && !c.red
  }

  /** No red node of the context has a red parent or a red child, and its root is black. */
  ghost predicate CtxNoRedRed(c: Ctx) {
    match c
    case Top => true
    case InLeft(up, _, red, r) => NoRedRed(r) && CtxNoRedRed(up) && (red ==> !IsRed(r) && BlackAbove(up))
    case InRight(l, _, red, up) => NoRedRed(l) && CtxNoRedRed(up) && (red ==> !IsRed(l) && BlackAbove(up))
  }

  ghost predicate CtxOk(c: Ctx, h: nat) {
    CtxBalanced(c, h) && CtxNoRedRed(c)
  }

  /** A tree is red-black exactly when its two parts are and their border is. */
  lemma {:induction false} PlugRedBlack(c: Ctx, t: Tree)
    ensures RedBlack(Plug(c, t)) <==>
              Balanced(t) && NoRedRed(t) && CtxOk(c, BlackHeight(t)) && (IsRed(t) ==> BlackAbove(c))
    decreases c
  {
    match c
    case Top =>
    case InLeft(up, n, red, r) => PlugRedBlack(up, Bin(t, n, red, r));
    case InRight(l, n, red, up) => PlugRedBlack(up, Bin(l, n, red, t));
  }

  ghost function Painted(t: Tree, red: bool): Tree {
    match t
    case Leaf => Leaf
    case Bin(l, n, _, r) => Bin(l, n, red, r)
  }

  // ---------- Search ----------

  ghost predicate Below(s: seq<Ref>, k: int) {
    forall x :: x in s ==> x.Elem? && x.key < k
  }

  ghost predicate Above(s: seq<Ref>, k: int) {
    forall x :: x in s ==> x.Elem? && k < x.key
  }

  lemma SortedAround(a: seq<Ref>, x: Ref, b: seq<Ref>)
    ensures Sorted(a + [x] + b) <==> x.Elem? && Sorted(a + b) && Below(a, x.key) && Above(b, x.key)
  {
    var s, w := a + b, a + [x] + b;
    if Sorted(w) {
      assert w[|a|] == x;
      forall i | 0 <= i < |a| ensures a[i].Elem? && a[i].key < x.key {
        assert w[i] == a[i];
      }
      forall i | 0 <= i < |b| ensures b[i].Elem? && x.key < b[i].key {
        assert w[|a| + 1 + i] == b[i];
      }
      forall i | 0 <= i < |s| ensures s[i].Elem? {
        assert s[i] == w[if i < |a| then i else i + 1];
      }
      forall i, j | 0 <= i < j < |s| ensures s[i].key < s[j].key {
        assert s[i] == w[if i < |a| then i else i + 1] && s[j] == w[if j < |a| then j else j + 1];
      }
    }
    if x.Elem? && Sorted(s) && Below(a, x.key) && Above(b, x.key) {
      forall i | 0 <= i < |w| ensures w[i].Elem? {
        assert w[i] == if i < |a| then a[i] else if i == |a| then x else b[i - |a| - 1];
      }
      forall i, j | 0 <= i < j < |w| ensures w[i].key < w[j].key {
        assert i < |a| ==> w[i] == a[i] == s[i];
        assert j > |a| ==> w[j] == b[j - |a| - 1] == s[j - 1];
        assert i > |a| ==> w[i] == b[i - |a| - 1] == s[i - 1];
        assert j < |a| ==> w[j] == a[j] == s[j];
      }
    }
  }

  /** The key `k` belongs in the hole. */
  ghost predicate Locates(c: Ctx, k: int) {
    Below(Before(c), k) && Above(After(c), k)
  }

  ghost predicate Searching(c: Ctx, t: Tree, k: int) {
    Sorted(Whole(c, t)) && Locates(c, k)
  }

  lemma Descend(c: Ctx, t: Tree, k: int)
    requires t.Bin? && Searching(c, t, k)
    ensures t.node.Elem?
    ensures k < t.node.key ==>
              var c' := InLeft(c, t.node, t.red, t.right);
              Searching(c', t.left, k) && Whole(c', t.left) == Whole(c, t)
    ensures k > t.node.key ==>
              var c' := InRight(t.left, t.node, t.red, c);
              Searching(c', t.right, k) && Whole(c', t.right) == Whole(c, t)
  {
    var a, b := Before(c) + InOrder(t.left), InOrder(t.right) + After(c);
    assert Whole(c, t) == a + [t.node] + b;
    SortedAround(a, t.node, b);
    FillWhole(InLeft(c, t.node, t.red, t.right), t.left);
    FillWhole(InRight(t.left, t.node, t.red, c), t.right);
  }

  /** The first element after the hole. */
  ghost function FirstAfter(c: Ctx): Ref {
    if After(c) == [] then Null else After(c)[0]
  }

  lemma FirstAfterUp(c: Ctx)
    requires !c.Top?
    ensures FirstAfter(c) == if c.InLeft? then c.node else FirstAfter(c.up)
  {
  }

  lemma SearchAll(t: Tree, k: int)
    requires Sorted(InOrder(t))
    ensures Searching(Top, t, k) && Whole(Top, t) == InOrder(t) && FirstAfter(Top) == Null
  {
    assert Whole(Top, t) == InOrder(t);
  }

  lemma Found(c: Ctx, t: Tree, k: int)
    requires t.Leaf? && Searching(c, t, k)
    ensures FirstAfter(c) == Null <==> Below(Whole(c, t), k)
    ensures FirstAfter(c) != Null ==>
              FirstAfter(c).Elem? && exists a, b ::
                Whole(c, t) == a + [FirstAfter(c)] + b && Below(a, k) && k <= FirstAfter(c).key
  {
    assert Whole(c, t) == Before(c) + After(c);
    if After(c) != [] {
      var r := After(c)[0];
      assert r in After(c);
      assert After(c) == [r] + After(c)[1..];
      assert Whole(c, t) == Before(c) + [r] + After(c)[1..];
      assert r in Whole(c, t);
    }
  }

  lemma Split(c: Ctx, t: Tree)
    requires t.Bin? && Sorted(Whole(c, t))
    ensures t.node.Elem? && t.node in Whole(c, t) && !Below(Whole(c, t), t.node.key)
    ensures exists a, b :: Whole(c, t) == a + [t.node] + b && Below(a, t.node.key)
  {
    var a, b := Before(c) + InOrder(t.left), InOrder(t.right) + After(c);
    assert Whole(c, t) == a + [t.node] + b;
    assert Whole(c, t)[|a|] == t.node;
    SortedAround(a, t.node, b);
  }

  /** An element that belongs in an empty hole is not in the tree, and fits into the order. */
  lemma Misplaced(c: Ctx, t: Tree, elm: Ref)
    requires t.Leaf? && elm.Elem? && Searching(c, t, elm.key)
    ensures elm !in CtxNodes(c)
    ensures forall x :: x in Whole(c, t) ==> x.key != elm.key
  {
    PlugInOrder(c, t);
    PlugNodes(c, t);
    NodesInOrder(Plug(c, t));
  }

  lemma FitsIn(c: Ctx, t: Tree, elm: Ref)
    requires t.Leaf? && elm.Elem? && Searching(c, t, elm.key)
    ensures Whole(c, t) == Before(c) + After(c) && Sorted(Before(c) + [elm] + After(c))
  {
    assert Whole(c, t) == Before(c) + After(c);
    SortedAround(Before(c), elm, After(c));
  }

  // ---------- Insertion ----------

  /** A red subtree that fits its context, except that the node above may be red as well. */
  ghost predicate Inserting(c: Ctx, t: Tree) {
    t.Bin? && t.red && Balanced(t) && NoRedRed(t) && CtxOk(c, BlackHeight(t))
  }

  lemma NewLeaf(c: Ctx, elm: Ref)
    requires CtxOk(c, 0)
    ensures var t := Bin(Leaf, elm, true, Leaf);
            Inserting(c, t) && Whole(c, t) == Before(c) + [elm] + After(c)
  {
    assert NoRedRed(Leaf) && Balanced(Leaf) && InOrder(Leaf) == [];
  }

  lemma Inserted(c: Ctx, t: Tree)
    requires Inserting(c, t) && (c.Top? || !c.red)
    ensures var w := Plug(c, t);
            w.Bin? && RedBlack(Painted(w, false)) && InOrder(Painted(w, false)) == Whole(c, t)
  {
    PlugRedBlack(c, t);
    PlugInOrder(c, t);
    PlugNodes(c, t);
    assert t.node in Nodes(Plug(c, t));
  }

  /** A red uncle: the grandparent turns red, its children black. */
  lemma InsertRecolor(c: Ctx, t: Tree)
    requires Inserting(c, t) && !c.Top? && c.red
    ensures !c.up.Top? && !c.up.red
    ensures IsRed(Sibling(c.up)) ==>
              var u := WithSibling(c.up, Painted(Sibling(c.up), false));
              var g := Painted(Fill(u, Painted(Fill(c, t), false)), true);
              Inserting(c.up.up, g) && Whole(c.up.up, g) == Whole(c, t)
  {
    FillWhole(c, t);
    FillWhole(c.up, Fill(c, t));
    assert CtxOk(c.up, BlackHeight(t)) && CtxOk(c.up.up, BlackHeight(t) + 1);
    if IsRed(Sibling(c.up)) {
      var g := Painted(Fill(WithSibling(c.up, Painted(Sibling(c.up), false)), Painted(Fill(c, t), false)), true);
      assert InOrder(g) == InOrder(Fill(c.up, Fill(c, t)));
    }
  }

  /** An inner child is rotated outwards; an outer child lets its parent replace the grandparent. */
  lemma InsertInnerLeft(c: Ctx, t: Tree)
    requires Inserting(c, t) && c.InRight? && c.red && c.up.InLeft?
    ensures var c' := InLeft(c.up, t.node, true, t.right);
            var t' := Bin(c.left, c.node, true, t.left);
            && Fill(c', t') == RotatedLeft(Fill(c, t))
            && Inserting(c', t') && Whole(c', t') == Whole(c, t)
  {
    var c', t' := InLeft(c.up, t.node, true, t.right), Bin(c.left, c.node, true, t.left);
    FillWhole(c, t);
    FillWhole(c', t');
    RotatedInOrder(Fill(c, t));
  }

  lemma InsertInnerRight(c: Ctx, t: Tree)
    requires Inserting(c, t) && c.InLeft? && c.red && c.up.InRight?
    ensures var c' := InRight(t.left, t.node, true, c.up);
            var t' := Bin(t.right, c.node, true, c.right);
            && Fill(c', t') == RotatedRight(Fill(c, t))
            && Inserting(c', t') && Whole(c', t') == Whole(c, t)
  {
    var c', t' := InRight(t.left, t.node, true, c.up), Bin(t.right, c.node, true, c.right);
    FillWhole(c, t);
    FillWhole(c', t');
    RotatedInOrder(Fill(c, t));
  }

  lemma InsertOuterLeft(c: Ctx, t: Tree)
    requires Inserting(c, t) && c.InLeft? && c.red && c.up.InLeft? && !IsRed(c.up.right)
    ensures var c' := InLeft(c.up.up, c.node, false, Bin(c.right, c.up.node, true, c.up.right));
            && Fill(c', t) == RotatedRight(Painted(Fill(c.up, Painted(Fill(c, t), false)), true))
            && Inserting(c', t) && Whole(c', t) == Whole(c, t)
  {
    var c' := InLeft(c.up.up, c.node, false, Bin(c.right, c.up.node, true, c.up.right));
    var g := Painted(Fill(c.up, Painted(Fill(c, t), false)), true);
    FillWhole(c, t);
    FillWhole(c.up, Fill(c, t));
    assert CtxOk(c.up, BlackHeight(t)) && CtxOk(c.up.up, BlackHeight(t) + 1);
    FillWhole(c', t);
    RotatedInOrder(g);
    assert InOrder(g) == InOrder(Fill(c.up, Fill(c, t)));
  }

  lemma InsertOuterRight(c: Ctx, t: Tree)
    requires Inserting(c, t) && c.InRight? && c.red && c.up.InRight? && !IsRed(c.up.left)
    ensures var c' := InRight(Bin(c.up.left, c.up.node, true, c.left), c.node, false, c.up.up);
            && Fill(c', t) == RotatedLeft(Painted(Fill(c.up, Painted(Fill(c, t), false)), true))
            && Inserting(c', t) && Whole(c', t) == Whole(c, t)
  {
    var c' := InRight(Bin(c.up.left, c.up.node, true, c.left), c.node, false, c.up.up);
    var g := Painted(Fill(c.up, Painted(Fill(c, t), false)), true);
    FillWhole(c, t);
    FillWhole(c.up, Fill(c, t));
    assert CtxOk(c.up, BlackHeight(t)) && CtxOk(c.up.up, BlackHeight(t) + 1);
    FillWhole(c', t);
    RotatedInOrder(g);
    assert InOrder(g) == InOrder(Fill(c.up, Fill(c, t)));
  }

  // ---------- Removal ----------

  /** A subtree that is one black node short of what its context asks for; its root may be red
      with a red child. */
  ghost predicate Removing(c: Ctx, x: Tree) {
    Balanced(x) && NoRedRed(Painted(x, false)) && CtxOk(c, BlackHeight(x) + 1)
  }

  /** The shortage ends at a red root, which turns black, or at the root of the whole tree. */
  lemma Removed(c: Ctx, x: Tree)
    requires Removing(c, x) && (IsRed(x) || c.Top?)
    ensures RedBlack(Plug(c, Painted(x, false))) && InOrder(Plug(c, Painted(x, false))) == Whole(c, x)
  {
    PlugRedBlack(c, Painted(x, false));
    PlugInOrder(c, Painted(x, false));
  }

  lemma RemovingAll(t: Tree)
    requires RedBlack(t)
    ensures Removing(Top, t) && Whole(Top, t) == InOrder(t)
  {
  }

  /** Taking out a node with one subtree at most leaves a shortage when the node was black. */
  lemma RemoveOne(c: Ctx, t: Tree, x: Tree)
    requires RedBlack(Plug(c, t)) && t.Bin?
    requires (t.left.Leaf? && x == t.right) || (t.right.Leaf? && x == t.left)
    ensures t.red ==> RedBlack(Plug(c, x)) && InOrder(Plug(c, x)) == Whole(c, x)
    ensures !t.red ==> Removing(c, x)
  {
    hide RedBlack, Plug, InOrder, Whole, CtxOk, BlackAbove;
    PlugRedBlack(c, t);
    PlugRedBlack(c, x);
    PlugInOrder(c, x);
  }

  lemma {:induction false} AppendOrder(d: Ctx, o: Ctx)
    ensures Before(Append(d, o)) == Before(o) + Before(d)
    ensures After(Append(d, o)) == After(d) + After(o)
  {
    if !d.Top? {
      AppendOrder(d.up, o);
    }
  }

  lemma {:induction false} AppendOk(d: Ctx, o: Ctx, n: Ref, h: nat)
    requires CtxOk(Append(d, o), h) && !o.Top?
    ensures CtxOk(Append(d, o.(node := n)), h)
    ensures BlackAbove(Append(d, o.(node := n))) <==> BlackAbove(Append(d, o))
  {
    if !d.Top? {
      AppendOk(d.up, o, n, h + Black(d.red));
    }
  }

  lemma RemoveTwoColours(c: Ctx, t: Tree, d: Ctx, y: Tree)
    requires RedBlack(Plug(c, t)) && t.Bin? && Plug(d, y) == t.right && y.Bin? && y.left.Leaf?
    ensures var o := InRight(t.left, y.node, t.red, c);
            && (y.red ==> RedBlack(Plug(Append(d, o), y.right)))
            && (!y.red ==> Removing(Append(d, o), y.right))
  {
    var p, o := InRight(t.left, t.node, t.red, c), InRight(t.left, y.node, t.red, c);
    PlugAppend(d, p, y);
    PlugRedBlack(Append(d, p), y);
    AppendOk(d, p, y.node, BlackHeight(y));
    PlugRedBlack(Append(d, o), y.right);
  }

  lemma RemoveTwoNodes(c: Ctx, t: Tree, d: Ctx, y: Tree)
    requires t.Bin? && y.Bin?
    ensures var o := InRight(t.left, t.node, t.red, c);
            y.node !in CtxNodes(Append(d, o)) + Nodes(y.left) + Nodes(y.right) ==>
              y.node !in CtxNodes(c) + Nodes(Bin(t.left, t.node, t.red, Plug(d, y.right)))
  {
    var o := InRight(t.left, t.node, t.red, c);
    PlugNodes(Append(d, o), y.right);
    PlugAppend(d, o, y.right);
    PlugNodes(c, Bin(t.left, t.node, t.red, Plug(d, y.right)));
  }

  lemma Regroup(p: seq<Ref>, l: seq<Ref>, n: Ref, r: seq<Ref>, q: seq<Ref>)
    ensures p + (l + [n] + r) + q == p + l + [n] + (r + q)
    ensures p + l + (r + q) == p + l + r + q
  {
  }

  lemma RegroupLast(p: seq<Ref>, n: Ref, e: seq<Ref>, r: seq<Ref>, l: seq<Ref>, q: seq<Ref>)
    requires e == []
    ensures p + ([n] + r + l) + q == p + [n] + e + r + (l + q)
  {
  }

  lemma RegroupFirst(p: seq<Ref>, l: seq<Ref>, n: Ref, r: seq<Ref>, q: seq<Ref>)
    requires p == [] && l == []
    ensures p + (l + [n] + r) + q == [n] + r + q
  {
  }

  lemma InOrderBin(t: Tree)
    ensures t.Leaf? ==> InOrder(t) == []
    ensures t.Bin? ==> InOrder(t) == InOrder(t.left) + [t.node] + InOrder(t.right)
  {
  }

  lemma WholeDef(c: Ctx, t: Tree)
    ensures Whole(c, t) == Before(c) + InOrder(t) + After(c)
  {
  }

  lemma BeforeRight(c: Ctx)
    requires c.InRight?
    ensures Before(c) == Before(c.up) + InOrder(c.left) + [c.node] && After(c) == After(c.up)
  {
  }

  /** The order that is left when the successor `y` takes the place of the root of `t`. */
  lemma RemoveTwoOrder(c: Ctx, t: Tree, d: Ctx, y: Tree)
    requires t.Bin? && Plug(d, y) == t.right && y.Bin? && y.left.Leaf? && Before(d) == []
    ensures var o := InRight(t.left, y.node, t.red, c);
            && InOrder(Plug(Append(d, o), y.right)) == Whole(Append(d, o), y.right)
            && Whole(Append(d, o), y.right) == Before(c) + InOrder(t.left) + InOrder(t.right) + After(c)
  {
    hide *;
    var o := InRight(t.left, y.node, t.red, c);
    PlugInOrder(Append(d, o), y.right);
    AppendOrder(d, o);
    BeforeRight(o);
    PlugInOrder(d, y);
    InOrderBin(y);
    InOrderBin(y.left);
    calc {
      Whole(Append(d, o), y.right);
      { WholeDef(Append(d, o), y.right); }
      Before(c) + InOrder(t.left) + [y.node] + Before(d) + InOrder(y.right) + (After(d) + After(c));
      { RegroupLast(Before(c) + InOrder(t.left), y.node, Before(d), InOrder(y.right), After(d), After(c)); }
      Before(c) + InOrder(t.left) + ([y.node] + InOrder(y.right) + After(d)) + After(c);
      { WholeDef(d, y);
        RegroupFirst(Before(d), InOrder(y.left), y.node, InOrder(y.right), After(d)); }
      Before(c) + InOrder(t.left) + InOrder(t.right) + After(c);
    }
  }

  /** `r` follows `x` in `s`, or is NULL when `x` is the last. */
  ghost predicate Successor(s: seq<Ref>, x: Ref, r: Ref) {
    exists i :: 0 <= i < |s| && s[i] == x && r == From(s, i + 1)
  }

  ghost function From(s: seq<Ref>, i: nat): Ref {
    if i < |s| then s[i] else Null
  }

  lemma SuccessorAt(a: seq<Ref>, x: Ref, b: seq<Ref>)
    ensures Successor(a + [x] + b, x, if b == [] then Null else b[0])
  {
    var s, r := a + [x] + b, if b == [] then Null else b[0];
    assert s[|a|] == x && r == From(s, |a| + 1);
  }

  lemma SuccessorFirst(d: Ctx, y: Tree, t: Tree)
    requires Plug(d, y) == t && y.Bin? && y.left.Leaf? && Before(d) == []
    ensures InOrder(t) != [] && InOrder(t)[0] == y.node
  {
    PlugInOrder(d, y);
    InOrderBin(y.left);
  }

  /** The order that is left when the root of the focus is taken out. */
  lemma RemoveOrder(c: Ctx, t: Tree)
    requires t.Bin? && Sorted(InOrder(Plug(c, t)))
    ensures var a, b := Before(c) + InOrder(t.left), InOrder(t.right) + After(c);
            && InOrder(Plug(c, t)) == a + [t.node] + b && Sorted(a + b)
            && a + b == Before(c) + InOrder(t.left) + InOrder(t.right) + After(c)
  {
    hide Sorted, InOrder, Before, After;
    PlugInOrder(c, t);
    InOrderBin(t);
    Regroup(Before(c), InOrder(t.left), t.node, InOrder(t.right), After(c));
    SortedAround(Before(c) + InOrder(t.left), t.node, InOrder(t.right) + After(c));
  }

  lemma RemoveOneOrder(c: Ctx, t: Tree)
    requires t.Bin?
    ensures t.left.Leaf? ==> Whole(c, t.right) == Before(c) + InOrder(t.left) + (InOrder(t.right) + After(c))
    ensures t.right.Leaf? ==> Whole(c, t.left) == Before(c) + InOrder(t.left) + (InOrder(t.right) + After(c))
  {
    hide InOrder, Before, After;
    InOrderBin(t.left);
    InOrderBin(t.right);
  }

  /** A black sibling without red children turns red, and the shortage moves up. */
  lemma RemoveRecolor(c: Ctx, x: Tree)
    requires Removing(c, x) && !c.Top? && !IsRed(x)
    ensures Sibling(c).Bin?
    ensures var s := Sibling(c);
            !s.red && !IsRed(s.left) && !IsRed(s.right) ==>
              var x' := Fill(WithSibling(c, Painted(s, true)), x);
              Removing(c.up, x') && Whole(c.up, x') == Whole(c, x)
  {
    var x' := Fill(WithSibling(c, Painted(Sibling(c), true)), x);
    FillWhole(c, x);
    assert InOrder(x') == InOrder(Fill(c, x));
  }

  lemma RemoveRedLeft(c: Ctx, x: Tree)
    requires Removing(c, x) && c.InLeft? && IsRed(c.right)
    ensures var c' := InLeft(InLeft(c.up, c.right.node, false, c.right.right), c.node, true, c.right.left);
            && Fill(c'.up, Fill(c', x)) == RotatedLeft(Painted(Fill(WithSibling(c, Painted(c.right, false)), x), true))
            && Removing(c', x) && !IsRed(c'.right) && Whole(c', x) == Whole(c, x)
  {
    var s := c.right;
    var c' := InLeft(InLeft(c.up, s.node, false, s.right), c.node, true, s.left);
    assert Balanced(s) && NoRedRed(s);
    assert CtxOk(c.up, BlackHeight(x) + 2);
    assert CtxOk(c'.up, BlackHeight(x) + 1);
    FillWhole(c, x);
    FillWhole(c', x);
    FillWhole(c'.up, Fill(c', x));
    RotatedInOrder(Fill(c, x));
  }

  lemma RemoveInnerLeft(c: Ctx, x: Tree)
    requires Removing(c, x) && c.InLeft? && c.right.Bin? && !c.right.red && IsRed(c.right.left) && !IsRed(c.right.right)
    ensures var s := c.right;
            var s' := RotatedRight(Bin(Painted(s.left, false), s.node, true, s.right));
            var c' := WithSibling(c, s');
            && Removing(c', x) && s'.Bin? && !s'.red && IsRed(s'.right) && Whole(c', x) == Whole(c, x)
  {
    var s := c.right;
    var s' := Bin(Painted(s.left, false), s.node, true, s.right);
    assert Balanced(s.left) && NoRedRed(s.left);
    RotatedInOrder(s');
    assert InOrder(s') == InOrder(s);
  }

  lemma RemoveOuterLeft(c: Ctx, x: Tree)
    requires Removing(c, x) && c.InLeft? && !IsRed(x) && c.right.Bin? && !c.right.red && IsRed(c.right.right)
    ensures var s := Bin(c.right.left, c.right.node, c.red, Painted(c.right.right, false));
            var t := RotatedLeft(Bin(x, c.node, false, s));
            RedBlack(Plug(c.up, t)) && InOrder(Plug(c.up, t)) == Whole(c, x)
  {
    var s := Bin(c.right.left, c.right.node, c.red, Painted(c.right.right, false));
    var t := RotatedLeft(Bin(x, c.node, false, s));
    assert Balanced(c.right) && NoRedRed(c.right) && Balanced(c.right.right) && NoRedRed(c.right.right);
    assert Balanced(t.left) && Balanced(t.right) && NoRedRed(t.left) && NoRedRed(t.right);
    assert BlackHeight(t) == BlackHeight(x) + 1 + Black(c.red);
    PlugRedBlack(c.up, t);
    PlugInOrder(c.up, t);
    FillWhole(c, x);
    RotatedInOrder(Bin(x, c.node, false, s));
    assert InOrder(s) == InOrder(c.right);
  }

  lemma RemoveRedRight(c: Ctx, x: Tree)
    requires Removing(c, x) && c.InRight? && IsRed(c.left)
    ensures var c' := InRight(c.left.right, c.node, true, InRight(c.left.left, c.left.node, false, c.up));
            && Fill(c'.up, Fill(c', x)) == RotatedRight(Painted(Fill(WithSibling(c, Painted(c.left, false)), x), true))
            && Removing(c', x) && !IsRed(c'.left) && Whole(c', x) == Whole(c, x)
  {
    var s := c.left;
    var c' := InRight(s.right, c.node, true, InRight(s.left, s.node, false, c.up));
    assert Balanced(s) && NoRedRed(s);
    assert CtxOk(c.up, BlackHeight(x) + 2);
    assert CtxOk(c'.up, BlackHeight(x) + 1);
    FillWhole(c, x);
    FillWhole(c', x);
    FillWhole(c'.up, Fill(c', x));
    RotatedInOrder(Fill(c, x));
  }

  lemma RemoveInnerRight(c: Ctx, x: Tree)
    requires Removing(c, x) && c.InRight? && c.left.Bin? && !c.left.red && IsRed(c.left.right) && !IsRed(c.left.left)
    ensures var s := c.left;
            var s' := RotatedLeft(Bin(s.left, s.node, true, Painted(s.right, false)));
            var c' := WithSibling(c, s');
            && Removing(c', x) && s'.Bin? && !s'.red && IsRed(s'.left) && Whole(c', x) == Whole(c, x)
  {
    var s := c.left;
    var s' := Bin(s.left, s.node, true, Painted(s.right, false));
    assert Balanced(s.right) && NoRedRed(s.right);
    RotatedInOrder(s');
    assert InOrder(s') == InOrder(s);
  }

  lemma RemoveOuterRight(c: Ctx, x: Tree)
    requires Removing(c, x) && c.InRight? && !IsRed(x) && c.left.Bin? && !c.left.red && IsRed(c.left.left)
    ensures var s := Bin(Painted(c.left.left, false), c.left.node, c.red, c.left.right);
            var t := RotatedRight(Bin(s, c.node, false, x));
            RedBlack(Plug(c.up, t)) && InOrder(Plug(c.up, t)) == Whole(c, x)
  {
    var s := Bin(Painted(c.left.left, false), c.left.node, c.red, c.left.right);
    var t := RotatedRight(Bin(s, c.node, false, x));
    assert Balanced(c.left) && NoRedRed(c.left) && Balanced(c.left.left) && NoRedRed(c.left.left);
    assert Balanced(t.left) && Balanced(t.right) && NoRedRed(t.left) && NoRedRed(t.right);
    assert BlackHeight(t) == BlackHeight(x) + 1 + Black(c.red);
    PlugRedBlack(c.up, t);
    PlugInOrder(c.up, t);
    FillWhole(c, x);
    RotatedInOrder(Bin(s, c.node, false, x));
    assert InOrder(s) == InOrder(c.left);
  }

  // ---------- Height ----------

  ghost function Height(t: Tree): nat {
    match t
    case Leaf => 0
    case Bin(l, _, _, r) => 1 + if Height(l) < Height(r) then Height(r) else Height(l)
  }

  lemma SquareMono(a: nat, b: nat)
    requires a <= b
    ensures a * a <= b * b
  {
    assert a * a <= a * b <= b * b;
  }

  lemma {:induction false} SizeBound(t: Tree)
    requires Balanced(t)
    ensures Pow2(BlackHeight(t)) <= |InOrder(t)| + 1
  {
    match t
    case Leaf =>
    case Bin(l, _, _, r) =>
      SizeBound(l);
      SizeBound(r);
  }

  lemma {:induction false} HeightBound(t: Tree)
    requires Balanced(t) && NoRedRed(t)
    ensures Height(t) <= 2 * BlackHeight(t) + if IsRed(t) then 1 else 0
  {
    match t
    case Leaf =>
    case Bin(l, _, _, r) =>
      HeightBound(l);
      HeightBound(r);
  }

  /** The promised height 2 lg(n + 1), without logarithms: 2^height <= (n + 1)^2. */
  lemma RedBlackHeight(t: Tree)
    requires RedBlack(t)
    ensures Pow2(Height(t)) <= (|InOrder(t)| + 1) * (|InOrder(t)| + 1)
  {
    var h := BlackHeight(t);
    HeightBound(t);
    SizeBound(t);
    Pow2Mono(Height(t), h + h);
    Pow2Add(h, h);
    SquareMono(Pow2(h), |InOrder(t)| + 1);
  }
}
