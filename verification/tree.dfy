/** The ternary parse tree (`Nodo`, `ArbolTernario`, Compilador.cpp:14-67),
    kept as an arena: a node is addressed by its index, and the child and
    parent pointers become optional indices. A node is only ever appended,
    so a child always has a larger index than the node it hangs from, and a
    parent a smaller one. */
module Tree {
  import opened Results
  import opened Tokens

  /** The labels the source stores in `Nodo::valor`. */
  datatype Sym =
    | Expr | Term | Unary          // "<E>", "<T>", "<U>"
    | Op(op: BinOp)                // "+", "-", "*", "/" (a unary minus is also labelled "-")
    | LParen | RParen | NumMark    // "(", ")", "num"
    | Literal(text: string)        // a literal's text, hung below its "num" node
    | Null                         // the "NULL" placeholder of a unit rule

  /** The string the source would hold in `valor`. */
  function Label(s: Sym): string {
    match s
    case Expr => "<E>"
    case Term => "<T>"
    case Unary => "<U>"
    case Op(o) => (match o case Add => "+" case Sub => "-" case Mul => "*" case Div => "/")
    case LParen => "("
    case RParen => ")"
    case NumMark => "num"
    case Literal(x) => x
    case Null => "NULL"
  }

  datatype Node = Node(sym: Sym, left: Option<nat>, mid: Option<nat>, right: Option<nat>, parent: Option<nat>)

  datatype Slot = Left | Mid | Right

  function Child(n: Node, s: Slot): Option<nat> {
    match s
    case Left => n.left
    case Mid => n.mid
    case Right => n.right
  }

  function WithChild(n: Node, s: Slot, c: nat): Node {
    match s
    case Left => n.(left := Some(c))
    case Mid => n.(mid := Some(c))
    case Right => n.(right := Some(c))
  }

  /** No child has been inserted yet. */
  predicate Bare(n: Node) {
    n.left.None? && n.mid.None? && n.right.None?
  }

  /** All three children are present. */
  predicate Full(n: Node) {
    n.left.Some? && n.mid.Some? && n.right.Some?
  }

  predicate LinkOk(tree: seq<Node>, k: nat, o: Option<nat>) {
    o.None? || k < o.value < |tree|
  }

  predicate NodeOk(tree: seq<Node>, k: nat)
    requires k < |tree|
  {
    var n := tree[k];
    && LinkOk(tree, k, n.left) && LinkOk(tree, k, n.mid) && LinkOk(tree, k, n.right)
    && (n.parent.Some? ==> n.parent.value < k)
    && (Bare(n) || Full(n))
  }

  /** Every pointer stays inside the arena, children come after their
      node and parents before it, and a node has none or all three of its
      children: every expansion inserts all three slots at once. */
  predicate Wf(tree: seq<Node>) {
    forall k :: 0 <= k < |tree| ==> NodeOk(tree, k)
  }

  /** `tree'` grew from `tree` by appending nodes and filling slots: no
      label or parent link of an existing node changed. */
  predicate Extends(tree: seq<Node>, tree': seq<Node>) {
    && |tree| <= |tree'|
    && forall i {:trigger tree'[i], tree[i]} :: 0 <= i < |tree| ==> tree'[i].sym == tree[i].sym && tree'[i].parent == tree[i].parent
  }

  /** `ArbolTernario::insertar`: a new childless node is created in the
      slot only when the slot is empty; otherwise nothing changes. */
  function Insert(tree: seq<Node>, k: nat, s: Slot, sym: Sym, parent: Option<nat>): (r: seq<Node>)
    requires k < |tree|
    ensures Child(tree[k], s).Some? ==> r == tree
    ensures Child(tree[k], s).None? ==> |r| == |tree| + 1 && Child(r[k], s) == Some(|tree|)
    ensures Child(tree[k], s).None? ==> r[|tree|] == Node(sym, None, None, None, parent)
    ensures forall i :: 0 <= i < |tree| && i != k ==> r[i] == tree[i]
    ensures Extends(tree, r)
    ensures forall s' :: s' != s ==> Child(r[k], s') == Child(tree[k], s')
  {
    if Child(tree[k], s).Some? then tree
    else tree[k := WithChild(tree[k], s, |tree|)] + [Node(sym, None, None, None, parent)]
  }

  /** The three `insertar` calls every production of the parser makes on
      the node it expands, left to right. On a well-formed arena a node is
      bare or full, so this appends three new nodes or changes nothing;
      `ExpandInserts` shows it is the composition of the three inserts. */
  function Expand(tree: seq<Node>, k: nat, a: Sym, b: Sym, c: Sym, parent: Option<nat>): (r: seq<Node>)
    requires Wf(tree) && k < |tree|
    requires parent.Some? ==> parent.value < |tree|
    ensures Wf(r) && Extends(tree, r) && Full(r[k])
    ensures Full(tree[k]) ==> r == tree
    ensures Bare(tree[k]) ==> Fresh3(tree, r, k, a, b, c, parent)
  {
    assert NodeOk(tree, k);
    if Full(tree[k]) then tree
    else
      var n := |tree|;
      var r := tree[k := tree[k].(left := Some(n), mid := Some(n + 1), right := Some(n + 2))]
        + [Node(a, None, None, None, parent), Node(b, None, None, None, parent), Node(c, None, None, None, parent)];
      assert forall i :: 0 <= i < |r| ==> NodeOk(r, i) by {
        forall i | 0 <= i < |r| ensures NodeOk(r, i) {
          if i < |tree| && i != k { assert NodeOk(tree, i); }
        }
      }
      r
  }

  /** What expanding a bare node does: three new bare nodes at the end of
      the arena, in the node's three slots, and every other node as it was. */
  predicate Fresh3(tree: seq<Node>, r: seq<Node>, k: nat, a: Sym, b: Sym, c: Sym, parent: Option<nat>)
    requires k < |tree|
  {
    var n := |tree|;
    && |r| == n + 3
    && r[k] == tree[k].(left := Some(n), mid := Some(n + 1), right := Some(n + 2))
    && r[n] == Node(a, None, None, None, parent)
    && r[n + 1] == Node(b, None, None, None, parent)
    && r[n + 2] == Node(c, None, None, None, parent)
    && forall i {:trigger r[i], tree[i]} :: 0 <= i < n && i != k ==> r[i] == tree[i]
  }

  /** The arena that expanding node `k` yields, written out: `k` points at
      three new nodes appended in slot order. */
  function Grown(tree: seq<Node>, k: nat, a: Sym, b: Sym, c: Sym, parent: Option<nat>): (r: seq<Node>)
    requires k < |tree|
    ensures Fresh3(tree, r, k, a, b, c, parent)
  {
    var n := |tree|;
    tree[k := tree[k].(left := Some(n), mid := Some(n + 1), right := Some(n + 2))]
      + [Node(a, None, None, None, parent), Node(b, None, None, None, parent), Node(c, None, None, None, parent)]
  }

  lemma ExpandGrown(tree: seq<Node>, k: nat, a: Sym, b: Sym, c: Sym, parent: Option<nat>)
    requires Wf(tree) && k < |tree| && Bare(tree[k])
    requires parent.Some? ==> parent.value < |tree|
    ensures Expand(tree, k, a, b, c, parent) == Grown(tree, k, a, b, c, parent)
  {
  }

  /** Expanding is exactly inserting the left, middle and right child in
      turn with `insertar`. */
  lemma ExpandInserts(tree: seq<Node>, k: nat, a: Sym, b: Sym, c: Sym, parent: Option<nat>)
    requires Wf(tree) && k < |tree|
    requires parent.Some? ==> parent.value < |tree|
    ensures Expand(tree, k, a, b, c, parent)
         == Insert(Insert(Insert(tree, k, Left, a, parent), k, Mid, b, parent), k, Right, c, parent)
  {
    assert NodeOk(tree, k);
    var r := Expand(tree, k, a, b, c, parent);
    var t3 := Insert(Insert(Insert(tree, k, Left, a, parent), k, Mid, b, parent), k, Right, c, parent);
    if Bare(tree[k]) {
      InsertsFresh3(tree, k, a, b, c, parent);
      Fresh3Unique(tree, r, t3, k, a, b, c, parent);
    }
  }

  /** On a bare node the three inserts append three nodes as `Expand` does. */
  lemma InsertsFresh3(tree: seq<Node>, k: nat, a: Sym, b: Sym, c: Sym, parent: Option<nat>)
    requires k < |tree| && Bare(tree[k])
    ensures Fresh3(tree, Insert(Insert(Insert(tree, k, Left, a, parent), k, Mid, b, parent), k, Right, c, parent),
                   k, a, b, c, parent)
  {
    var n := |tree|;
    var t1 := Insert(tree, k, Left, a, parent);
    var t2 := Insert(t1, k, Mid, b, parent);
    var t3 := Insert(t2, k, Right, c, parent);
    assert t3[n] == t2[n] == t1[n];
    assert t3[n + 1] == t2[n + 1];
    assert forall i :: 0 <= i < n && i != k ==> t3[i] == t2[i] == t1[i] == tree[i];
  }

  /** The expansion of a bare node is determined by the labels. */
  lemma Fresh3Unique(tree: seq<Node>, r1: seq<Node>, r2: seq<Node>, k: nat, a: Sym, b: Sym, c: Sym, parent: Option<nat>)
    requires k < |tree|
    requires Fresh3(tree, r1, k, a, b, c, parent) && Fresh3(tree, r2, k, a, b, c, parent)
    ensures r1 == r2
  {
    var n := |tree|;
    forall i | 0 <= i < |r1| ensures r1[i] == r2[i] {
      if i < n && i != k {
        assert r1[i] == tree[i] == r2[i];
      }
    }
  }

  /** `ArbolTernario::altura`: the number of levels below and including a
      node. A subtree lives at or after its root's index, so its height is
      at most the number of arena slots from there on. */
  function Height(tree: seq<Node>, o: Option<nat>): (h: nat)
    requires Wf(tree) && (o.Some? ==> o.value < |tree|)
    ensures o.None? <==> h == 0
    ensures o.Some? ==> h <= |tree| - o.value
    decreases if o.Some? then |tree| - o.value else 0
  {
    match o
    case None => 0
    case Some(k) =>
      assert NodeOk(tree, k);
      var l := Height(tree, tree[k].left);
      var m := Height(tree, tree[k].mid);
      var r := Height(tree, tree[k].right);
      1 + Max3(l, m, r)
  }

  function Max3(a: nat, b: nat, c: nat): nat {
    if a >= b && a >= c then a else if b >= c then b else c
  }

  /** A node's height exceeds that of each of its children. */
  lemma HeightChildren(tree: seq<Node>, k: nat)
    requires Wf(tree) && k < |tree|
    ensures NodeOk(tree, k)
    ensures Height(tree, Some(k)) > Height(tree, tree[k].left)
    ensures Height(tree, Some(k)) > Height(tree, tree[k].mid)
    ensures Height(tree, Some(k)) > Height(tree, tree[k].right)
  {
    assert NodeOk(tree, k);
  }

  /** `b` hangs directly below `a`. */
  predicate ChildOf(tree: seq<Node>, a: nat, b: nat) {
    a < |tree| && (tree[a].left == Some(b) || tree[a].mid == Some(b) || tree[a].right == Some(b))
  }

  /** A path that goes down one level at each step. */
  predicate Descent(tree: seq<Node>, p: seq<nat>) {
    && p != []
    && (forall i :: 0 <= i < |p| ==> p[i] < |tree|)
    && (forall i :: 0 <= i < |p| - 1 ==> ChildOf(tree, p[i], p[i + 1]))
  }

  /** No downward path from a node has more nodes than its height. */
  lemma {:induction false} DescentBound(tree: seq<Node>, p: seq<nat>)
    requires Wf(tree) && Descent(tree, p)
    ensures |p| <= Height(tree, Some(p[0]))
    decreases |p|
  {
    if |p| > 1 {
      assert ChildOf(tree, p[0], p[1]);
      var q := p[1..];
      assert forall i :: 0 <= i < |q| - 1 ==> ChildOf(tree, q[i], q[i + 1]) by {
        forall i | 0 <= i < |q| - 1 ensures ChildOf(tree, q[i], q[i + 1]) {
          assert ChildOf(tree, p[i + 1], p[i + 2]);
        }
      }
      DescentBound(tree, q);
      HeightChildren(tree, p[0]);
    }
  }

  /** A downward path from `k` as long as its height: `altura` counts
      the levels of the longest branch. */
  ghost function Deepest(tree: seq<Node>, k: nat): (p: seq<nat>)
    requires Wf(tree) && k < |tree|
    ensures Descent(tree, p) && p[0] == k
    ensures |p| == Height(tree, Some(k))
    decreases |tree| - k
  {
    assert NodeOk(tree, k);
    var n := tree[k];
    if Bare(n) then [k]
    else
      var l, m, r := Height(tree, n.left), Height(tree, n.mid), Height(tree, n.right);
      var c := if l >= m && l >= r then n.left.value else if m >= r then n.mid.value else n.right.value;
      assert ChildOf(tree, k, c);
      var q := Deepest(tree, c);
      assert |q| == Max3(l, m, r);
      DescentCons(tree, k, q);
      [k] + q
  }

  /** A downward path stays one when a parent is put in front of it. */
  lemma DescentCons(tree: seq<Node>, k: nat, q: seq<nat>)
    requires Descent(tree, q) && ChildOf(tree, k, q[0])
    ensures Descent(tree, [k] + q)
  {
    var p := [k] + q;
    forall i | 0 <= i < |p| - 1 ensures ChildOf(tree, p[i], p[i + 1]) {
      if i > 0 { assert p[i] == q[i - 1] && p[i + 1] == q[i]; }
    }
  }

  /** The height of a node is the number of nodes on its longest
      downward path. */
  lemma HeightLongest(tree: seq<Node>, k: nat)
    requires Wf(tree) && k < |tree|
    ensures forall p :: Descent(tree, p) && p[0] == k ==> |p| <= Height(tree, Some(k))
    ensures exists p :: Descent(tree, p) && p[0] == k && |p| == Height(tree, Some(k))
  {
    forall p | Descent(tree, p) && p[0] == k ensures |p| <= Height(tree, Some(k)) {
      DescentBound(tree, p);
    }
    var d := Deepest(tree, k);
  }
}
