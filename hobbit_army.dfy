/**
 * `HobbitArmy` of pt2/sample.cpp: hobbits kept in an AVL tree ordered by name. The nodes
 * are modelled as values: every operation that rewrites the `left`, `right`, `height` and
 * `hobbit` fields of nodes returns the rebuilt subtree, and the class `HobbitArmy` holds
 * the root that the public operations reassign.
 */
module Army {
  import opened Wrappers
  import opened NameOrder

  /** `Hobbit` (lines 24-29). */
  datatype Hobbit = Hobbit(name: string, hp: int, off: int, def: int)

  /** A node pointer: `Nil` for `nullptr`, or a `Node` (lines 52-59) with its hobbit, its
      children and its stored height. A node is created with height 1 and later heights
      are one more than a maximum, so they are never negative. */
  datatype Tree = Nil | Node(hobbit: Hobbit, left: Tree, right: Tree, height: nat)

  function Max(a: int, b: int): int {
    if a < b then b else a
  }

  /** `getHeight` (line 122). */
  function GetHeight(t: Tree): nat {
    if t.Nil? then 0 else t.height
  }

  // ---------------------------------------------------------------------------------
  // What a tree holds, and the invariants the operations keep

  /** The hobbits of a tree, by name. */
  ghost function Contents(t: Tree): map<string, Hobbit> {
    match t
    case Nil => map[]
    case Node(h, l, r, _) => (Contents(l) + Contents(r))[h.name := h]
  }

  /** Search-tree order: every name in the left subtree is less than the node's name, and
      every name in the right subtree greater. */
  ghost predicate Ordered(t: Tree) {
    match t
    case Nil => true
    case Node(h, l, r, _) =>
      && Ordered(l) && Ordered(r)
      && (forall k :: k in Contents(l) ==> Less(k, h.name))
      && (forall k :: k in Contents(r) ==> Less(h.name, k))
  }

  /** Every stored height is one more than the greater height of the children. */
  ghost predicate HeightsOk(t: Tree) {
    match t
    case Nil => true
    case Node(_, l, r, height) =>
      HeightsOk(l) && HeightsOk(r) && height == 1 + Max(GetHeight(l), GetHeight(r))
  }

  /** The heights of the two subtrees of every node differ by at most one. */
  ghost predicate Balanced(t: Tree) {
    match t
    case Nil => true
    case Node(_, l, r, _) =>
      Balanced(l) && Balanced(r) && -1 <= GetHeight(l) - GetHeight(r) <= 1
  }

  ghost predicate Avl(t: Tree) {
    Ordered(t) && HeightsOk(t) && Balanced(t)
  }

  /** Each hobbit is stored under its own name. */
  lemma {:induction false} ContentsNames(t: Tree)
    ensures forall k :: k in Contents(t) ==> Contents(t)[k].name == k
  {
    if t.Node? {
      ContentsNames(t.left);
      ContentsNames(t.right);
    }
  }

  // ---------------------------------------------------------------------------------
  // Heights and rotations

  /** `updateHeight` (lines 123-125). */
  function UpdateHeight(t: Tree): (r: Tree)
    ensures t.Node? && HeightsOk(t.left) && HeightsOk(t.right) ==> HeightsOk(r)
  {
    if t.Nil? then t else t.(height := 1 + Max(GetHeight(t.left), GetHeight(t.right)))
  }

  /** `getBalance` (lines 126-128). */
  function GetBalance(t: Tree): int {
    if t.Nil? then 0 else GetHeight(t.left) - GetHeight(t.right)
  }

  /** `rRotate` (lines 130-138): the left child becomes the root. */
  function RotateRight(y: Tree): Tree
    requires y.Node? && y.left.Node?
  {
    var x := y.left;
    var t2 := x.right;
    var y' := UpdateHeight(y.(left := t2));
    UpdateHeight(x.(right := y'))
  }

  /** `lRotate` (lines 140-148): the right child becomes the root. */
  function RotateLeft(x: Tree): Tree
    requires x.Node? && x.right.Node?
  {
    var y := x.right;
    var t2 := y.left;
    var x' := UpdateHeight(x.(right := t2));
    UpdateHeight(y.(left := x'))
  }

  /** The contents after a rotation: the two nodes trade places, which changes nothing
      while their names differ and the outer subtree does not hold the inner name. */
  lemma RotatedContents(ca: map<string, Hobbit>, cb: map<string, Hobbit>, cc: map<string, Hobbit>,
                        x: Hobbit, y: Hobbit)
    requires x.name != y.name && x.name !in cc
    ensures (ca + (cb + cc)[y.name := y])[x.name := x] == ((ca + cb)[x.name := x] + cc)[y.name := y]
  {
  }

  lemma RotateRightFacts(y: Tree)
    requires y.Node? && y.left.Node? && HeightsOk(y.left) && HeightsOk(y.right)
    ensures HeightsOk(RotateRight(y))
    ensures Ordered(y) ==> Ordered(RotateRight(y)) && Contents(RotateRight(y)) == Contents(y)
  {
    var x := y.left;
    var a, b, c := x.left, x.right, y.right;
    var h1 := 1 + Max(GetHeight(b), GetHeight(c));
    var r := Node(x.hobbit, a, Node(y.hobbit, b, c, h1), 1 + Max(GetHeight(a), h1));
    assert RotateRight(y) == r;
    RotatedOrder(x.hobbit, y.hobbit, a, b, c, h1, r.height, x.height, y.height);
  }

  lemma RotateLeftFacts(x: Tree)
    requires x.Node? && x.right.Node? && HeightsOk(x.left) && HeightsOk(x.right)
    ensures HeightsOk(RotateLeft(x))
    ensures Ordered(x) ==> Ordered(RotateLeft(x)) && Contents(RotateLeft(x)) == Contents(x)
  {
    var y := x.right;
    var a, b, c := x.left, y.left, y.right;
    var h3 := 1 + Max(GetHeight(a), GetHeight(b));
    var r := Node(y.hobbit, Node(x.hobbit, a, b, h3), c, 1 + Max(h3, GetHeight(c)));
    assert RotateLeft(x) == r;
    RotatedOrder(x.hobbit, y.hobbit, a, b, c, y.height, x.height, h3, r.height);
  }

  /** The two shapes a rotation turns into each other, `x` over `a` and (`y` over `b` and
      `c`), and `y` over (`x` over `a` and `b`) and `c`, hold the same hobbits and either is
      ordered exactly when the other is. */
  lemma RotatedOrder(x: Hobbit, y: Hobbit, a: Tree, b: Tree, c: Tree, h1: nat, h2: nat, h3: nat, h4: nat)
    ensures var low := Node(x, a, Node(y, b, c, h1), h2);
            var high := Node(y, Node(x, a, b, h3), c, h4);
            (Ordered(low) <==> Ordered(high)) && (Ordered(low) ==> Contents(low) == Contents(high))
  {
    var xn, yn := x.name, y.name;
    var ca, cb, cc := Contents(a), Contents(b), Contents(c);
    var lowRight := Node(y, b, c, h1);
    var highLeft := Node(x, a, b, h3);
    var low := Node(x, a, lowRight, h2);
    var high := Node(y, highLeft, c, h4);
    assert Contents(lowRight) == (cb + cc)[yn := y];
    assert Contents(highLeft) == (ca + cb)[xn := x];
    if Ordered(low) {
      assert Ordered(lowRight);
      assert yn in Contents(lowRight);
      assert Less(xn, yn);
      forall k | k in ca ensures Less(k, yn) {
        LessTransitive(k, xn, yn);
      }
      forall k | k in cb ensures Less(xn, k) {
        assert k in Contents(lowRight);
      }
      assert Ordered(highLeft);
      LessAsymmetric(xn, yn);
      LessIrreflexive(xn);
      assert Ordered(high);
      assert xn !in cc;
      RotatedContents(ca, cb, cc, x, y);
    }
    if Ordered(high) {
      assert Ordered(highLeft);
      assert xn in Contents(highLeft);
      assert Less(xn, yn);
      forall k | k in cc ensures Less(xn, k) {
        LessTransitive(xn, yn, k);
      }
      forall k | k in cb ensures Less(k, yn) {
        assert k in Contents(highLeft);
      }
      assert Ordered(lowRight);
      assert Ordered(low);
    }
  }

  /** `rebalance` (lines 150-166). */
  function Rebalance(n: Tree): Tree {
    var n := UpdateHeight(n);
    var balance := GetBalance(n);
    if balance > 1 then
      var n := if GetBalance(n.left) < 0 then n.(left := RotateLeft(n.left)) else n;
      RotateRight(n)
    else if balance < -1 then
      var n := if GetBalance(n.right) > 0 then n.(right := RotateRight(n.right)) else n;
      RotateLeft(n)
    else n
  }

  /** The height a node gets from `updateHeight`. */
  ghost function NewHeight(n: Tree): nat
    requires n.Node?
  {
    1 + Max(GetHeight(n.left), GetHeight(n.right))
  }

  /** What `rebalance` does to a node whose subtrees are AVL trees whose heights differ by
      at most two: an AVL tree with the same hobbits, as high as `updateHeight` makes the
      node or one less; the node itself, with its height updated, when the subtrees'
      heights differ by at most one; one less after a rotation whose heavy child leans to
      one side. */
  lemma RebalanceFacts(n: Tree)
    requires n.Node? && HeightsOk(n.left) && HeightsOk(n.right) && Balanced(n.left) && Balanced(n.right)
    requires -2 <= GetBalance(n) <= 2
    ensures var r := Rebalance(n);
      && r.Node? && HeightsOk(r) && Balanced(r)
      && NewHeight(n) - 1 <= GetHeight(r) <= NewHeight(n)
      && (-1 <= GetBalance(n) <= 1 ==> r == n.(height := NewHeight(n)))
      && (GetBalance(n) == 2 && GetBalance(n.left) != 0 ==> GetHeight(r) == NewHeight(n) - 1)
      && (GetBalance(n) == -2 && GetBalance(n.right) != 0 ==> GetHeight(r) == NewHeight(n) - 1)
      && (Ordered(n) ==> Ordered(r) && Contents(r) == Contents(n))
  {
    RebalanceKeepsOrder(n);
    if GetBalance(n) == 2 {
      if GetBalance(n.left) < 0 {
        LeftDouble(n);
      } else {
        LeftSingle(n);
      }
    } else if GetBalance(n) == -2 {
      if GetBalance(n.right) > 0 {
        RightDouble(n);
      } else {
        RightSingle(n);
      }
    }
  }

  /** `rebalance` keeps the order and the hobbits. */
  lemma RebalanceKeepsOrder(n: Tree)
    requires n.Node? && HeightsOk(n.left) && HeightsOk(n.right)
    ensures Ordered(n) ==> Ordered(Rebalance(n)) && Contents(Rebalance(n)) == Contents(n)
  {
    var m := n.(height := NewHeight(n));
    assert Ordered(m) == Ordered(n) && Contents(m) == Contents(n);
    if GetBalance(m) > 1 {
      if GetBalance(m.left) < 0 {
        DoubleRightKeepsOrder(m);
      } else {
        assert Rebalance(n) == RotateRight(m);
        RotateRightFacts(m);
      }
    } else if GetBalance(m) < -1 {
      if GetBalance(m.right) > 0 {
        DoubleLeftKeepsOrder(m);
      } else {
        assert Rebalance(n) == RotateLeft(m);
        RotateLeftFacts(m);
      }
    }
  }

  lemma DoubleRightKeepsOrder(m: Tree)
    requires m.Node? && HeightsOk(m.left) && HeightsOk(m.right)
    requires m.height == NewHeight(m) && GetBalance(m) > 1 && GetBalance(m.left) < 0
    ensures Ordered(m) ==> Ordered(Rebalance(m)) && Contents(Rebalance(m)) == Contents(m)
  {
    if Ordered(m) {
      var l := m.left;
      assert l.right.Node?;
      RotateLeftFacts(l);
      var l' := RotateLeft(l);
      var m' := m.(left := l');
      ChildReplaced(m, l', m.right);
      assert Rebalance(m) == RotateRight(m');
      RotateRightFacts(m');
    }
  }

  lemma DoubleLeftKeepsOrder(m: Tree)
    requires m.Node? && HeightsOk(m.left) && HeightsOk(m.right)
    requires m.height == NewHeight(m) && GetBalance(m) < -1 && GetBalance(m.right) > 0
    ensures Ordered(m) ==> Ordered(Rebalance(m)) && Contents(Rebalance(m)) == Contents(m)
  {
    if Ordered(m) {
      var r := m.right;
      assert r.left.Node?;
      RotateRightFacts(r);
      var r' := RotateRight(r);
      var m' := m.(right := r');
      ChildReplaced(m, m.left, r');
      assert Rebalance(m) == RotateLeft(m');
      RotateLeftFacts(m');
    }
  }

  /** Replacing the children of a node by trees with the same hobbits, ordered if they
      were, keeps the node's hobbits and order. */
  lemma ChildReplaced(n: Tree, l: Tree, r: Tree)
    requires n.Node? && Contents(l) == Contents(n.left) && Contents(r) == Contents(n.right)
    requires Ordered(n.left) ==> Ordered(l)
    requires Ordered(n.right) ==> Ordered(r)
    ensures Contents(n.(left := l, right := r)) == Contents(n)
    ensures Ordered(n) ==> Ordered(n.(left := l, right := r))
  {
  }

  lemma LeftDouble(n: Tree)
    requires n.Node? && HeightsOk(n.left) && HeightsOk(n.right) && Balanced(n.left) && Balanced(n.right)
    requires GetBalance(n) == 2 && GetBalance(n.left) < 0
    ensures var r := Rebalance(n);
      r.Node? && HeightsOk(r) && Balanced(r) && GetHeight(r) == NewHeight(n) - 1
  {
    var l, hR := n.left, GetHeight(n.right);
    var b := l.right;
    var low := Node(l.hobbit, l.left, b.left, 1 + Max(GetHeight(l.left), GetHeight(b.left)));
    var high := Node(n.hobbit, b.right, n.right, 1 + Max(GetHeight(b.right), hR));
    assert Rebalance(n) == Node(b.hobbit, low, high, 1 + Max(low.height, high.height));
  }

  lemma LeftSingle(n: Tree)
    requires n.Node? && HeightsOk(n.left) && HeightsOk(n.right) && Balanced(n.left) && Balanced(n.right)
    requires GetBalance(n) == 2 && GetBalance(n.left) >= 0
    ensures var r := Rebalance(n);
      && r.Node? && HeightsOk(r) && Balanced(r)
      && GetHeight(r) == (if GetBalance(n.left) == 0 then NewHeight(n) else NewHeight(n) - 1)
  {
    var l, hR := n.left, GetHeight(n.right);
    var high := Node(n.hobbit, l.right, n.right, 1 + Max(GetHeight(l.right), hR));
    assert Rebalance(n) == Node(l.hobbit, l.left, high, 1 + Max(GetHeight(l.left), high.height));
  }

  lemma RightDouble(n: Tree)
    requires n.Node? && HeightsOk(n.left) && HeightsOk(n.right) && Balanced(n.left) && Balanced(n.right)
    requires GetBalance(n) == -2 && GetBalance(n.right) > 0
    ensures var r := Rebalance(n);
      r.Node? && HeightsOk(r) && Balanced(r) && GetHeight(r) == NewHeight(n) - 1
  {
    var r, hL := n.right, GetHeight(n.left);
    var b := r.left;
    var high := Node(r.hobbit, b.right, r.right, 1 + Max(GetHeight(b.right), GetHeight(r.right)));
    var low := Node(n.hobbit, n.left, b.left, 1 + Max(hL, GetHeight(b.left)));
    assert Rebalance(n) == Node(b.hobbit, low, high, 1 + Max(low.height, high.height));
  }

  lemma RightSingle(n: Tree)
    requires n.Node? && HeightsOk(n.left) && HeightsOk(n.right) && Balanced(n.left) && Balanced(n.right)
    requires GetBalance(n) == -2 && GetBalance(n.right) <= 0
    ensures var r := Rebalance(n);
      && r.Node? && HeightsOk(r) && Balanced(r)
      && GetHeight(r) == (if GetBalance(n.right) == 0 then NewHeight(n) else NewHeight(n) - 1)
  {
    var r, hL := n.right, GetHeight(n.left);
    var low := Node(n.hobbit, n.left, r.left, 1 + Max(hL, GetHeight(r.left)));
    assert Rebalance(n) == Node(r.hobbit, low, r.right, 1 + Max(low.height, GetHeight(r.right)));
  }

  // ---------------------------------------------------------------------------------
  // Lookup

  /** `find` (lines 219-226), giving the hobbit of the node found. */
  function Find(t: Tree, name: string): Option<Hobbit> {
    if t.Nil? then None
    else if Less(name, t.hobbit.name) then Find(t.left, name)
    else if Less(t.hobbit.name, name) then Find(t.right, name)
    else Some(t.hobbit)
  }

  /** In an ordered tree the search finds the hobbit of that name exactly when there is
      one. */
  lemma {:induction false} FindFacts(t: Tree, name: string)
    requires Ordered(t)
    ensures Find(t, name) == if name in Contents(t) then Some(Contents(t)[name]) else None
  {
    if t.Node? {
      var n := t.hobbit.name;
      LessAsymmetric(name, n);
      if Less(name, n) {
        FindFacts(t.left, name);
        assert name !in Contents(t.right);
      } else if Less(n, name) {
        FindFacts(t.right, name);
        assert name !in Contents(t.left);
      } else {
        LessTotal(name, n);
      }
    }
  }

  /** `findMin` (lines 168-172), giving the hobbit of the leftmost node. */
  function FindMin(t: Tree): Hobbit
    requires t.Node?
  {
    if t.left.Nil? then t.hobbit else FindMin(t.left)
  }

  /** The leftmost hobbit of an ordered tree is the one with the least name. */
  lemma {:induction false} FindMinFacts(t: Tree)
    requires t.Node? && Ordered(t)
    ensures var m := FindMin(t);
      && m.name in Contents(t) && Contents(t)[m.name] == m
      && forall k :: k in Contents(t) ==> k == m.name || Less(m.name, k)
  {
    var n := t.hobbit.name;
    if t.left.Node? {
      FindMinFacts(t.left);
      var m := FindMin(t.left);
      assert Less(m.name, n);
      LessAsymmetric(m.name, n);
      assert m.name !in Contents(t.right);
      forall k | k in Contents(t.right) ensures Less(m.name, k) {
        LessTransitive(m.name, n, k);
      }
    }
  }

  // ---------------------------------------------------------------------------------
  // Adding

  /** `add_impl` (lines 174-189): the new subtree, and `success`. */
  function Insert(t: Tree, hobbit: Hobbit): (Tree, bool) {
    if t.Nil? then (Node(hobbit, Nil, Nil, 1), true)
    else if Less(hobbit.name, t.hobbit.name) then
      var (l, success) := Insert(t.left, hobbit);
      var t := t.(left := l);
      if !success then (t, false) else (Rebalance(t), true)
    else if Less(t.hobbit.name, hobbit.name) then
      var (r, success) := Insert(t.right, hobbit);
      var t := t.(right := r);
      if !success then (t, false) else (Rebalance(t), true)
    else (t, false)
  }

  /** What adding `hobbit` to the AVL tree `t` gives: an AVL tree holding the new hobbit
      as well when its name was absent, and `t` itself, with `false`, when it was present;
      one level higher at most, and leaning to one side when it did grow. */
  ghost predicate Inserted(t: Tree, hobbit: Hobbit, t': Tree, added: bool) {
    && Avl(t') && t'.Node?
    && (added <==> hobbit.name !in Contents(t))
    && Contents(t') == (if added then Contents(t)[hobbit.name := hobbit] else Contents(t))
    && (!added ==> t' == t)
    && GetHeight(t) <= GetHeight(t') <= GetHeight(t) + 1
    && (t.Node? && GetHeight(t') == GetHeight(t) + 1 ==> GetBalance(t') != 0)
  }

  lemma {:induction false} InsertFacts(t: Tree, hobbit: Hobbit)
    requires Avl(t)
    ensures Inserted(t, hobbit, Insert(t, hobbit).0, Insert(t, hobbit).1)
  {
    if t.Node? {
      var n := t.hobbit.name;
      if Less(hobbit.name, n) {
        InsertFacts(t.left, hobbit);
        InsertLeft(t, hobbit);
      } else if Less(n, hobbit.name) {
        InsertFacts(t.right, hobbit);
        InsertRight(t, hobbit);
      } else {
        LessTotal(hobbit.name, n);
      }
    }
  }

  /** A new name in the left subtree of a node, which already holds the node's name. */
  lemma InsertedContents(cl: map<string, Hobbit>, cr: map<string, Hobbit>, x: Hobbit, h: Hobbit)
    requires h.name != x.name && h.name !in cr
    ensures (cl[h.name := h] + cr)[x.name := x] == (cl + cr)[x.name := x][h.name := h]
    ensures (cl + cr[h.name := h])[x.name := x] == (cl + cr)[x.name := x][h.name := h]
  {
  }

  lemma InsertLeft(t: Tree, hobbit: Hobbit)
    requires Avl(t) && t.Node? && Less(hobbit.name, t.hobbit.name)
    requires Inserted(t.left, hobbit, Insert(t.left, hobbit).0, Insert(t.left, hobbit).1)
    ensures Inserted(t, hobbit, Insert(t, hobbit).0, Insert(t, hobbit).1)
  {
    var n := t.hobbit.name;
    var (l, success) := Insert(t.left, hobbit);
    LessAsymmetric(hobbit.name, n);
    LessIrreflexive(n);
    assert hobbit.name !in Contents(t.right);
    var t1 := t.(left := l);
    if success {
      assert Ordered(t1);
      InsertedContents(Contents(t.left), Contents(t.right), t.hobbit, hobbit);
      RebalanceFacts(t1);
    }
  }

  lemma InsertRight(t: Tree, hobbit: Hobbit)
    requires Avl(t) && t.Node? && Less(t.hobbit.name, hobbit.name)
    requires Inserted(t.right, hobbit, Insert(t.right, hobbit).0, Insert(t.right, hobbit).1)
    ensures Inserted(t, hobbit, Insert(t, hobbit).0, Insert(t, hobbit).1)
  {
    var n := t.hobbit.name;
    var (r, success) := Insert(t.right, hobbit);
    LessAsymmetric(n, hobbit.name);
    LessIrreflexive(n);
    assert hobbit.name !in Contents(t.left);
    var t1 := t.(right := r);
    if success {
      assert Ordered(t1);
      InsertedContents(Contents(t.left), Contents(t.right), t.hobbit, hobbit);
      RebalanceFacts(t1);
    }
  }

  // ---------------------------------------------------------------------------------
  // Erasing

  /** `erase_impl` (lines 191-217): the new subtree, and the hobbit erased. A node with two
      children takes over the hobbit of the leftmost node of its right subtree, which is
      then erased from that subtree; what that inner erase reports is dropped. */
  function Remove(t: Tree, name: string): (Tree, Option<Hobbit>) {
    if t.Nil? then (Nil, None)
    else if Less(name, t.hobbit.name) then
      var (l, erased) := Remove(t.left, name);
      (Rebalance(t.(left := l)), erased)
    else if Less(t.hobbit.name, name) then
      var (r, erased) := Remove(t.right, name);
      (Rebalance(t.(right := r)), erased)
    else if t.left.Nil? then (t.right, Some(t.hobbit))
    else if t.right.Nil? then (t.left, Some(t.hobbit))
    else
      var successor := FindMin(t.right);
      var (r, _) := Remove(t.right, successor.name);
      (Rebalance(t.(hobbit := successor, right := r)), Some(t.hobbit))
  }

  /** What erasing `name` from the AVL tree `t` gives: an AVL tree without that name, the
      hobbit it had, if any, and `t` itself when the name was absent; at most one level
      lower. */
  ghost predicate Removed(t: Tree, name: string, t': Tree, erased: Option<Hobbit>) {
    && Avl(t')
    && erased == (if name in Contents(t) then Some(Contents(t)[name]) else None)
    && Contents(t') == Contents(t) - {name}
    && GetHeight(t) - 1 <= GetHeight(t') <= GetHeight(t)
    && (name !in Contents(t) ==> t' == t)
  }

  lemma {:induction false} RemoveFacts(t: Tree, name: string)
    requires Avl(t)
    ensures Removed(t, name, Remove(t, name).0, Remove(t, name).1)
  {
    if t.Node? {
      var n := t.hobbit.name;
      if Less(name, n) {
        RemoveFacts(t.left, name);
        RemoveLeft(t, name);
      } else if Less(n, name) {
        RemoveFacts(t.right, name);
        RemoveRight(t, name);
      } else {
        LessTotal(name, n);
        if t.left.Nil? || t.right.Nil? {
          RemoveLeaf(t);
        } else {
          var successor := FindMin(t.right);
          RemoveFacts(t.right, successor.name);
          RemoveInner(t);
        }
      }
    }
  }

  /** Taking a name out of one subtree of a node, which holds it only there. */
  lemma RemovedContents(cl: map<string, Hobbit>, cr: map<string, Hobbit>, x: Hobbit, name: string)
    requires name != x.name
    ensures name !in cr ==> ((cl - {name}) + cr)[x.name := x] == (cl + cr)[x.name := x] - {name}
    ensures name !in cl ==> (cl + (cr - {name}))[x.name := x] == (cl + cr)[x.name := x] - {name}
  {
  }

  lemma RemoveLeft(t: Tree, name: string)
    requires Avl(t) && t.Node? && Less(name, t.hobbit.name)
    requires Removed(t.left, name, Remove(t.left, name).0, Remove(t.left, name).1)
    ensures Removed(t, name, Remove(t, name).0, Remove(t, name).1)
  {
    var n := t.hobbit.name;
    var (l, erased) := Remove(t.left, name);
    LessAsymmetric(name, n);
    LessIrreflexive(n);
    assert name !in Contents(t.right);
    var t1 := t.(left := l);
    assert Remove(t, name) == (Rebalance(t1), erased);
    assert Ordered(t1);
    RemovedContents(Contents(t.left), Contents(t.right), t.hobbit, name);
    RebalanceFacts(t1);
  }

  lemma RemoveRight(t: Tree, name: string)
    requires Avl(t) && t.Node? && Less(t.hobbit.name, name)
    requires Removed(t.right, name, Remove(t.right, name).0, Remove(t.right, name).1)
    ensures Removed(t, name, Remove(t, name).0, Remove(t, name).1)
  {
    var n := t.hobbit.name;
    var (r, erased) := Remove(t.right, name);
    LessAsymmetric(n, name);
    LessIrreflexive(n);
    assert name !in Contents(t.left);
    var t1 := t.(right := r);
    assert Remove(t, name) == (Rebalance(t1), erased);
    assert Ordered(t1);
    RemovedContents(Contents(t.left), Contents(t.right), t.hobbit, name);
    RebalanceFacts(t1);
  }

  /** Erasing the name of a node with at most one child: the child takes its place. */
  lemma RemoveLeaf(t: Tree)
    requires Avl(t) && t.Node? && (t.left.Nil? || t.right.Nil?)
    ensures Removed(t, t.hobbit.name, Remove(t, t.hobbit.name).0, Remove(t, t.hobbit.name).1)
  {
    var n := t.hobbit.name;
    LessIrreflexive(n);
    if t.left.Nil? {
      assert Remove(t, n) == (t.right, Some(t.hobbit));
      assert n !in Contents(t.right);
      assert Contents(t) - {n} == Contents(t.right);
    } else {
      assert Remove(t, n) == (t.left, Some(t.hobbit));
      assert n !in Contents(t.left);
      assert Contents(t) - {n} == Contents(t.left);
    }
  }

  /** The hobbits of a node whose own hobbit is replaced by the least hobbit `s` of its
      right subtree, which is taken out of that subtree. */
  lemma SuccessorContents(cl: map<string, Hobbit>, cr: map<string, Hobbit>, x: Hobbit, s: Hobbit)
    requires s.name in cr && cr[s.name] == s && s.name !in cl
    requires x.name !in cl && x.name !in cr
    ensures (cl + (cr - {s.name}))[s.name := s] == (cl + cr)[x.name := x] - {x.name}
  {
  }

  /** Erasing the name of a node with two children. */
  lemma RemoveInner(t: Tree)
    requires Avl(t) && t.Node? && t.left.Node? && t.right.Node?
    requires Removed(t.right, FindMin(t.right).name, Remove(t.right, FindMin(t.right).name).0,
                     Remove(t.right, FindMin(t.right).name).1)
    ensures Removed(t, t.hobbit.name, Remove(t, t.hobbit.name).0, Remove(t, t.hobbit.name).1)
  {
    var n := t.hobbit.name;
    var s := FindMin(t.right);
    var (r, _) := Remove(t.right, s.name);
    LessIrreflexive(n);
    assert Remove(t, n) == (Rebalance(t.(hobbit := s, right := r)), Some(t.hobbit));
    FindMinFacts(t.right);
    assert Less(n, s.name);
    forall k | k in Contents(t.left) ensures Less(k, s.name) {
      LessTransitive(k, n, s.name);
    }
    LessAsymmetric(n, s.name);
    assert s.name !in Contents(t.left);
    assert n !in Contents(t.left) && n !in Contents(t.right);
    var t1 := t.(hobbit := s, right := r);
    assert Ordered(t1);
    SuccessorContents(Contents(t.left), Contents(t.right), t.hobbit, s);
    RebalanceFacts(t1);
  }

  // ---------------------------------------------------------------------------------
  // Lookup by name is `Find`; enchanting a range of names

  /** `name >= first && name <= last`. */
  predicate InRange(first: string, last: string, name: string) {
    !Less(name, first) && !Less(last, name)
  }

  function Enchanted(h: Hobbit, hp: int, off: int, def: int): Hobbit {
    h.(hp := h.hp + hp, off := h.off + off, def := h.def + def)
  }

  /** The hobbits after an enchantment: those whose names lie in the range get the three
      differences added, the others are unchanged. */
  ghost function EnchantMap(c: map<string, Hobbit>, first: string, last: string,
                            hp: int, off: int, def: int): map<string, Hobbit> {
    map k | k in c :: if InRange(first, last, k) then Enchanted(c[k], hp, off, def) else c[k]
  }

  /** `enchant_impl` (lines 228-242): the node is enchanted when its name is within the
      range, and a subtree is visited only when the range may reach into it. The nodes
      are changed in place, so names, children and heights stay as they are. */
  function EnchantRange(t: Tree, first: string, last: string, hp: int, off: int, def: int): Tree {
    if t.Nil? then Nil
    else
      var name := t.hobbit.name;
      var h := if InRange(first, last, name) then Enchanted(t.hobbit, hp, off, def) else t.hobbit;
      var l := if Less(first, name) then EnchantRange(t.left, first, last, hp, off, def) else t.left;
      var r := if Less(name, last) then EnchantRange(t.right, first, last, hp, off, def) else t.right;
      Node(h, l, r, t.height)
  }

  /** No name lies in a range whose first name is greater than its last. */
  lemma EmptyRange(first: string, last: string, name: string)
    requires Less(last, first)
    ensures !InRange(first, last, name)
  {
    if !Less(name, first) {
      LessThenAtMost(last, first, name);
    }
  }

  /** If no name of `c` is in the range, the enchantment changes nothing in `c`. */
  lemma EnchantNone(c: map<string, Hobbit>, first: string, last: string, hp: int, off: int, def: int)
    requires forall k :: k in c ==> !InRange(first, last, k)
    ensures EnchantMap(c, first, last, hp, off, def) == c
  {
  }

  /** Enchanting a node's contents: the node's hobbit and the two subtrees separately. */
  lemma EnchantJoin(cl: map<string, Hobbit>, cr: map<string, Hobbit>, x: Hobbit,
                    first: string, last: string, hp: int, off: int, def: int)
    requires forall k :: k in cl ==> k != x.name && k !in cr
    requires forall k :: k in cr ==> k != x.name
    ensures EnchantMap((cl + cr)[x.name := x], first, last, hp, off, def)
      == (EnchantMap(cl, first, last, hp, off, def) + EnchantMap(cr, first, last, hp, off, def))
         [x.name := if InRange(first, last, x.name) then Enchanted(x, hp, off, def) else x]
  {
  }

  /** Enchanting keeps every node's name, children's heights and height. */
  lemma {:induction false} EnchantShape(t: Tree, first: string, last: string, hp: int, off: int, def: int)
    ensures var t' := EnchantRange(t, first, last, hp, off, def);
      && GetHeight(t') == GetHeight(t)
      && (HeightsOk(t) ==> HeightsOk(t'))
      && (Balanced(t) ==> Balanced(t'))
  {
    if t.Node? {
      EnchantShape(t.left, first, last, hp, off, def);
      EnchantShape(t.right, first, last, hp, off, def);
    }
  }

  /** In a search tree, enchanting the range gives exactly the enchanted contents, and
      the tree stays a search tree. */
  lemma {:induction false} EnchantFacts(t: Tree, first: string, last: string, hp: int, off: int, def: int)
    requires Ordered(t)
    ensures var t' := EnchantRange(t, first, last, hp, off, def);
      && Contents(t') == EnchantMap(Contents(t), first, last, hp, off, def)
      && Ordered(t')
  {
    if t.Node? {
      var name := t.hobbit.name;
      var cl, cr := Contents(t.left), Contents(t.right);
      if Less(first, name) {
        EnchantFacts(t.left, first, last, hp, off, def);
      } else {
        forall k | k in cl ensures !InRange(first, last, k) {
          LessThenAtMost(k, name, first);
        }
        EnchantNone(cl, first, last, hp, off, def);
      }
      if Less(name, last) {
        EnchantFacts(t.right, first, last, hp, off, def);
      } else {
        forall k | k in cr ensures !InRange(first, last, k) {
          AtMostThenLess(last, name, k);
        }
        EnchantNone(cr, first, last, hp, off, def);
      }
      forall k | k in cl ensures k != name && k !in cr {
        LessIrreflexive(k);
        LessAsymmetric(k, name);
      }
      forall k | k in cr ensures k != name {
        LessIrreflexive(k);
      }
      EnchantJoin(cl, cr, t.hobbit, first, last, hp, off, def);
    }
  }

  // ---------------------------------------------------------------------------------
  // Visiting the hobbits in order

  /** `for_each_impl` (lines 107-112): the hobbits in the order they are passed to the
      callback, the left subtree first. */
  function InOrder(t: Tree): seq<Hobbit> {
    if t.Nil? then [] else InOrder(t.left) + [t.hobbit] + InOrder(t.right)
  }

  /** Strictly increasing names. */
  ghost predicate SortedByName(s: seq<Hobbit>) {
    forall i, j :: 0 <= i < j < |s| ==> Less(s[i].name, s[j].name)
  }

  /** `s` lists the hobbits of `c`, each once, by increasing name. */
  ghost predicate Lists(s: seq<Hobbit>, c: map<string, Hobbit>) {
    && SortedByName(s)
    && (forall x :: x in s <==> x.name in c && c[x.name] == x)
  }

  lemma {:induction false} InOrderFacts(t: Tree)
    requires Ordered(t)
    ensures Lists(InOrder(t), Contents(t))
  {
    if t.Node? {
      InOrderFacts(t.left);
      InOrderFacts(t.right);
      InOrderNode(t);
    }
  }

  lemma SortedJoin(a: seq<Hobbit>, h: Hobbit, b: seq<Hobbit>)
    requires SortedByName(a) && SortedByName(b)
    requires forall x :: x in a ==> Less(x.name, h.name)
    requires forall y :: y in b ==> Less(h.name, y.name)
    ensures SortedByName(a + [h] + b)
  {
    var s := a + [h] + b;
    forall i, j | 0 <= i < j < |s| ensures Less(s[i].name, s[j].name) {
      if j < |a| {
        assert s[i] == a[i] && s[j] == a[j];
      } else if i < |a| {
        assert s[i] == a[i] && s[i] in a;
        if j > |a| {
          assert s[j] == b[j - |a| - 1] && s[j] in b;
          LessTransitive(s[i].name, h.name, s[j].name);
        }
      } else if i == |a| {
        assert s[j] == b[j - |a| - 1] && s[j] in b;
      } else {
        assert s[i] == b[i - |a| - 1] && s[j] == b[j - |a| - 1];
      }
    }
  }

  lemma InOrderNode(t: Tree)
    requires Ordered(t) && t.Node?
    requires Lists(InOrder(t.left), Contents(t.left)) && Lists(InOrder(t.right), Contents(t.right))
    ensures Lists(InOrder(t), Contents(t))
  {
    var a, b, h := InOrder(t.left), InOrder(t.right), t.hobbit;
    var cl, cr := Contents(t.left), Contents(t.right);
    assert InOrder(t) == a + [h] + b;
    SortedJoin(a, h, b);
    forall k | k in cl ensures k != h.name && k !in cr {
      LessIrreflexive(k);
      LessAsymmetric(k, h.name);
    }
    forall k | k in cr ensures k != h.name {
      LessIrreflexive(k);
    }
    forall x ensures x in a + [h] + b <==> x.name in Contents(t) && Contents(t)[x.name] == x {
      InEitherPart(x, a + [h], b);
      InEitherPart(x, a, [h]);
    }
  }

  lemma InEitherPart<T>(x: T, s: seq<T>, t: seq<T>)
    ensures x in s + t <==> x in s || x in t
  {
  }

  // ---------------------------------------------------------------------------------
  // The army

  /** `HobbitArmy` (lines 48-243). */
  class HobbitArmy {
    /** `root` (line 61). */
    var root: Tree

    ghost predicate Valid()
      reads this
    {
      Avl(root)
    }

    /** The hobbits of the army, by name. */
    ghost function Hobbits(): map<string, Hobbit>
      reads this
    {
      Contents(root)
    }

    /** The default constructor (line 64): an empty army. */
    constructor()
      ensures Valid() && Hobbits() == map[]
    {
      root := Nil;
    }

    /** `add` (lines 71-76): a hobbit with `hp` at most zero, or one whose name is taken,
        is refused; otherwise it joins the army. */
    method Add(hobbit: Hobbit) returns (added: bool)
      requires Valid()
      modifies this
      ensures Valid()
      ensures added <==> hobbit.hp > 0 && hobbit.name !in old(Hobbits())
      ensures Hobbits() == if added then old(Hobbits())[hobbit.name := hobbit] else old(Hobbits())
    {
      if hobbit.hp <= 0 {
        return false;
      }
      InsertFacts(root, hobbit);
      var result := Insert(root, hobbit);
      root := result.0;
      added := result.1;
    }

    /** `erase` (lines 78-82): the hobbit of that name, which leaves the army, or nothing
        when there is none. */
    method Erase(name: string) returns (erased: Option<Hobbit>)
      requires Valid()
      modifies this
      ensures Valid()
      ensures erased == if name in old(Hobbits()) then Some(old(Hobbits())[name]) else None
      ensures Hobbits() == old(Hobbits()) - {name}
    {
      RemoveFacts(root, name);
      var result := Remove(root, name);
      root := result.0;
      erased := result.1;
    }

    /** `stats` (lines 84-88): the hobbit of that name, if any. */
    function Stats(name: string): (r: Option<Hobbit>)
      requires Valid()
      reads this
      ensures r == if name in Hobbits() then Some(Hobbits()[name]) else None
    {
      FindFacts(root, name);
      Find(root, name)
    }

    /** `enchant` (lines 90-100): adds the differences to every hobbit whose name lies
        between `first` and `last`, both included; a range whose first name is greater
        than its last leaves the army as it is. It always answers true. */
    method Enchant(first: string, last: string, hp: int, off: int, def: int) returns (ok: bool)
      requires Valid()
      modifies this
      ensures Valid() && ok
      ensures Hobbits() == EnchantMap(old(Hobbits()), first, last, hp, off, def)
      ensures Less(last, first) ==> root == old(root)
    {
      if Less(last, first) {
        forall k | k in Contents(root) ensures !InRange(first, last, k) {
          EmptyRange(first, last, k);
        }
        EnchantNone(Contents(root), first, last, hp, off, def);
        return true;
      }
      EnchantFacts(root, first, last, hp, off, def);
      EnchantShape(root, first, last, hp, off, def);
      root := EnchantRange(root, first, last, hp, off, def);
      return true;
    }

    /** `for_each` (lines 102-104): the hobbits as they are passed to the callback, that is
        every hobbit of the army once, by increasing name. */
    function ForEach(): (s: seq<Hobbit>)
      requires Valid()
      reads this
      ensures Lists(s, Hobbits())
    {
      InOrderFacts(root);
      InOrder(root)
    }
  }
}
