/** `parser` (Compilador.cpp:261-416): the grammar-driven tree builder.

    The four global vectors of the source (`cadena`, `valores`, `ultimos`,
    `operaciones`) and the cursor `actual` become the fields of one
    `State`; each iteration of the `while` loop at Compilador.cpp:265 is
    one `Step`, and the loop itself is `Run`, which carries a step budget
    because the source loop does not always stop. */
module Parser {
  import opened Results
  import opened Tokens
  import opened Tree

  datatype State = State(
    tokens: seq<Token>,   // cadena: what is left to consume
    values: seq<string>,  // valores: literal texts not yet bound to a leaf
    tree: seq<Node>,      // the arena; node 0 is the root
    cursor: Option<nat>,  // actual
    leaves: seq<nat>,     // ultimos: the literal nodes, in the order they were bound
    ops: seq<BinOp>)      // operaciones: the operator log

  /** The arena is well formed and the cursor points into it. */
  predicate Ready(s: State) {
    Wf(s.tree) && (s.cursor.Some? ==> s.cursor.value < |s.tree|)
  }

  /** The root `<E>` and the cursor on it (Compilador.cpp:262-263). */
  function Init(tokens: seq<Token>, values: seq<string>): (s: State)
    ensures Ready(s) && s.cursor == Some(0) && s.tree[0].sym == Expr && Bare(s.tree[0])
    ensures s.tokens == tokens && s.values == values && s.leaves == [] && s.ops == []
  {
    var root := Node(Expr, None, None, None, None);
    assert NodeOk([root], 0);
    State(tokens, values, [root], Some(0), [], [])
  }

  /** The operator a token stands for. */
  function OpOf(t: Token): BinOp
    requires IsOperator(t)
  {
    match t
    case Plus => Add
    case Minus => Sub
    case Star => Mul
    case Slash => Div
  }

  // ---------------------------------------------------------------------
  // The three scans
  // ---------------------------------------------------------------------

  /** At `<E>`: a `+`, or a `-` that is not the first token and follows a `num`. */
  predicate IsEOp(t: seq<Token>, i: nat)
    requires i < |t|
  {
    t[i] == Plus || (t[i] == Minus && i > 0 && t[i - 1] == Num)
  }

  /** At `<T>`: a `*` or a `/`. */
  predicate IsTOp(t: seq<Token>, i: nat)
    requires i < |t|
  {
    t[i] == Star || t[i] == Slash
  }

  /** At `<U>`: a `num`, a `-` or a `(`. */
  predicate IsUHead(t: seq<Token>, i: nat)
    requires i < |t|
  {
    t[i] == Num || t[i] == Minus || t[i] == Open
  }

  /** `i` is the operator an `<E>` step expands on: the first `+` or
      qualifying `-`, with no `(` before it. */
  predicate FirstEOp(t: seq<Token>, i: int) {
    0 <= i < |t| && IsEOp(t, i) && forall k :: 0 <= k < i ==> !IsEOp(t, k) && t[k] != Open
  }

  /** `i` is the operator a `<T>` step expands on: the first `*` or `/`,
      with no `(` before it. */
  predicate FirstTOp(t: seq<Token>, i: int) {
    0 <= i < |t| && IsTOp(t, i) && forall k :: 0 <= k < i ==> !IsTOp(t, k) && t[k] != Open
  }

  /** The scan loop of the `<E>` branch (Compilador.cpp:271-285). */
  function ScanE(t: seq<Token>, i: nat): (r: Option<nat>)
    ensures r.Some? ==> i <= r.value < |t| && IsEOp(t, r.value)
    ensures r.Some? ==> forall k :: i <= k < r.value ==> !IsEOp(t, k) && t[k] != Open
    ensures r.None? ==> forall p :: i <= p < |t| && IsEOp(t, p) ==> exists k :: i <= k < p && t[k] == Open
    decreases |t| - i
  {
    if i >= |t| then None
    else if t[i] == Plus then Some(i)
    else if t[i] == Minus && i != 0 then
      if t[i - 1] == Num then Some(i) else ScanE(t, i + 1)
    else if t[i] == Open then None
    else ScanE(t, i + 1)
  }

  /** The scan loop of the `<T>` branch (Compilador.cpp:311-324): a `(`
      ends the scan without an operator. */
  function ScanT(t: seq<Token>, i: nat): (r: Option<nat>)
    ensures r.Some? ==> i <= r.value < |t| && IsTOp(t, r.value)
    ensures r.Some? ==> forall k :: i <= k < r.value ==> !IsTOp(t, k) && t[k] != Open
    ensures r.None? ==> forall p :: i <= p < |t| && IsTOp(t, p) ==> exists k :: i <= k < p && t[k] == Open
    decreases |t| - i
  {
    if i >= |t| then None
    else if t[i] == Star || t[i] == Slash then Some(i)
    else if t[i] == Open then None
    else ScanT(t, i + 1)
  }

  /** The scan loop of the `<U>` branch (Compilador.cpp:350-363). */
  function ScanU(t: seq<Token>, i: nat): (r: Option<nat>)
    ensures r.Some? ==> i <= r.value < |t| && IsUHead(t, r.value)
    ensures r.Some? ==> forall k :: i <= k < r.value ==> !IsUHead(t, k)
    ensures r.None? ==> forall p :: i <= p < |t| ==> !IsUHead(t, p)
    decreases |t| - i
  {
    if i >= |t| then None
    else if t[i] == Num || t[i] == Minus || t[i] == Open then Some(i)
    else ScanU(t, i + 1)
  }

  /** The position of the first `)` anywhere in the stream. */
  function FirstClose(t: seq<Token>, j: nat): (r: Option<nat>)
    ensures r.Some? ==> j <= r.value < |t| && t[r.value] == Close
    ensures r.Some? ==> forall k :: j <= k < r.value ==> t[k] != Close
    ensures r.None? ==> forall k :: j <= k < |t| ==> t[k] != Close
    decreases |t| - j
  {
    if j >= |t| then None
    else if t[j] == Close then Some(j)
    else FirstClose(t, j + 1)
  }

  /** The erase loop of Compilador.cpp:370-375: it starts at position 0,
      so it takes the first `)` of the whole stream, whether or not that
      is the partner of the `(` just removed. */
  function EraseFirstClose(t: seq<Token>): (r: seq<Token>)
    ensures (forall k :: 0 <= k < |t| ==> t[k] != Close) ==> r == t
    ensures forall j :: 0 <= j < |t| && t[j] == Close && (forall k :: 0 <= k < j ==> t[k] != Close) ==>
      r == RemoveAt(t, j)
  {
    match FirstClose(t, 0)
    case None => t
    case Some(j) => RemoveAt(t, j)
  }

  // ---------------------------------------------------------------------
  // The upward walk after a leaf
  // ---------------------------------------------------------------------

  /** A binary node whose right operand has not been expanded yet: a `<T>`
      with `*` or `/` in the middle, or an `<E>` with `+` or `-`, whose
      right child has no middle child (Compilador.cpp:401, 406). The source
      dereferences the right child without a check; `Wf` guarantees it is
      there whenever the middle child is. */
  predicate Pending(tree: seq<Node>, a: nat)
    requires Wf(tree) && a < |tree|
  {
    assert NodeOk(tree, a);
    var n := tree[a];
    && n.mid.Some? && n.right.Some?
    && tree[n.right.value].mid.None?
    && var m := tree[n.mid.value].sym;
       || (n.sym == Term && (m == Op(Mul) || m == Op(Div)))
       || (n.sym == Expr && (m == Op(Add) || m == Op(Sub)))
  }

  function PendingOp(tree: seq<Node>, a: nat): BinOp
    requires Wf(tree) && a < |tree| && Pending(tree, a)
  {
    assert NodeOk(tree, a);
    tree[tree[a].mid.value].sym.op
  }

  /** The `while (actual != nullptr)` loop of Compilador.cpp:400-412: the
      operator and right child of the first pending node met going up. */
  function WalkUp(tree: seq<Node>, o: Option<nat>): (r: Option<(BinOp, nat)>)
    requires Wf(tree) && (o.Some? ==> o.value < |tree|)
    ensures r.Some? ==> r.value.1 < |tree| && Bare(tree[r.value.1])
    decreases if o.Some? then o.value + 1 else 0
  {
    match o
    case None => None
    case Some(a) =>
      assert NodeOk(tree, a);
      if Pending(tree, a) then
        assert NodeOk(tree, tree[a].right.value);
        Some((PendingOp(tree, a), tree[a].right.value))
      else WalkUp(tree, tree[a].parent)
  }

  /** The nodes met walking up the parent links from `o`. */
  function Ancestors(tree: seq<Node>, o: Option<nat>): (ch: seq<nat>)
    requires Wf(tree) && (o.Some? ==> o.value < |tree|)
    ensures forall i :: 0 <= i < |ch| ==> ch[i] < |tree|
    ensures o.None? <==> ch == []
    ensures o.Some? ==> ch[0] == o.value
    ensures |ch| > 0 ==> tree[ch[|ch| - 1]].parent.None?
    decreases if o.Some? then o.value + 1 else 0
  {
    match o
    case None => []
    case Some(a) =>
      assert NodeOk(tree, a);
      [a] + Ancestors(tree, tree[a].parent)
  }

  /** None of the nodes `ch` has a pending operator. */
  predicate NoPending(tree: seq<Node>, ch: seq<nat>)
    requires Wf(tree) && forall i :: 0 <= i < |ch| ==> ch[i] < |tree|
  {
    forall i :: 0 <= i < |ch| ==> !Pending(tree, ch[i])
  }

  /** The walk yields nothing exactly when no node met going up has a
      pending operator; the cursor then becomes null. */
  lemma {:induction false} WalkUpNone(tree: seq<Node>, o: Option<nat>)
    requires Wf(tree) && (o.Some? ==> o.value < |tree|)
    ensures WalkUp(tree, o).None? <==> NoPending(tree, Ancestors(tree, o))
    decreases if o.Some? then o.value + 1 else 0
  {
    if o.Some? {
      var a := o.value;
      assert NodeOk(tree, a);
      var up := tree[a].parent;
      WalkUpNone(tree, up);
      var ch := Ancestors(tree, o);
      var rest := Ancestors(tree, up);
      assert ch[0] == a && ch[1..] == rest;
      if Pending(tree, a) {
        assert Ancestors(tree, o) == ch;
        assert WalkUp(tree, o).Some? && Pending(tree, ch[0]);
        assert !(forall i :: 0 <= i < |ch| ==> !Pending(tree, ch[i]));
      } else {
        assert WalkUp(tree, o) == WalkUp(tree, up);
        if WalkUp(tree, up).None? {
          assert NoPending(tree, rest);
          forall i | 0 <= i < |ch| ensures !Pending(tree, ch[i]) {
            if i == 0 {
              assert ch[0] == a;
            } else {
              assert ch[i] == rest[i - 1];
              assert !Pending(tree, rest[i - 1]);
            }
          }
        } else {
          var j :| 0 <= j < |rest| && Pending(tree, rest[j]);
          assert ch[j + 1] == rest[j];
        }
      }
    }
  }

  /** Otherwise it stops at the nearest ancestor whose binary operator
      still waits for its right operand, logs that operator and moves to
      that right operand. */
  lemma {:induction false} WalkUpNearest(tree: seq<Node>, o: Option<nat>)
    requires Wf(tree) && (o.Some? ==> o.value < |tree|)
    ensures var ch := Ancestors(tree, o);
      WalkUp(tree, o).Some? ==>
        exists i :: 0 <= i < |ch| && Pending(tree, ch[i]) && (forall j :: 0 <= j < i ==> !Pending(tree, ch[j]))
                    && WalkUp(tree, o).value == (PendingOp(tree, ch[i]), tree[ch[i]].right.value)
    decreases if o.Some? then o.value + 1 else 0
  {
    if o.Some? {
      var a := o.value;
      assert NodeOk(tree, a);
      var up := tree[a].parent;
      var ch := Ancestors(tree, o);
      var rest := Ancestors(tree, up);
      assert ch[0] == a && ch[1..] == rest;
      if Pending(tree, a) {
        assert Ancestors(tree, o) == ch;
        assert Pending(tree, ch[0]) && WalkUp(tree, o).value == (PendingOp(tree, ch[0]), tree[ch[0]].right.value);
      } else if WalkUp(tree, up).Some? {
        assert WalkUp(tree, o) == WalkUp(tree, up);
        WalkUpNearest(tree, up);
        NearestShift(tree, ch, WalkUp(tree, o).value);
      }
    }
  }

  /** The nearest pending node past a non-pending first one. */
  lemma NearestShift(tree: seq<Node>, ch: seq<nat>, v: (BinOp, nat))
    requires Wf(tree) && forall k :: 0 <= k < |ch| ==> ch[k] < |tree|
    requires 0 < |ch| && !Pending(tree, ch[0])
    requires var rest := ch[1..];
      exists i :: 0 <= i < |rest| && Pending(tree, rest[i]) && (forall j :: 0 <= j < i ==> !Pending(tree, rest[j]))
                  && v == (PendingOp(tree, rest[i]), tree[rest[i]].right.value)
    ensures exists k :: 0 <= k < |ch| && Pending(tree, ch[k]) && (forall j :: 0 <= j < k ==> !Pending(tree, ch[j]))
                        && v == (PendingOp(tree, ch[k]), tree[ch[k]].right.value)
  {
    var rest := ch[1..];
    var i :| 0 <= i < |rest| && Pending(tree, rest[i]) && (forall j :: 0 <= j < i ==> !Pending(tree, rest[j]))
             && v == (PendingOp(tree, rest[i]), tree[rest[i]].right.value);
    assert ch[i + 1] == rest[i];
    forall j | 0 <= j < i + 1 ensures !Pending(tree, ch[j]) {
      if j > 0 { assert ch[j] == rest[j - 1]; }
    }
  }

  /** One turn of the walk: past a node with nothing pending it goes on
      to the parent; at a pending node it stops with that node's operator
      and right operand. */
  lemma WalkOne(tree: seq<Node>, a: nat)
    requires Wf(tree) && a < |tree|
    ensures tree[a].parent.Some? ==> tree[a].parent.value < |tree|
    ensures !Pending(tree, a) ==> WalkUp(tree, Some(a)) == WalkUp(tree, tree[a].parent)
    ensures Pending(tree, a) ==> tree[a].right.Some? && WalkUp(tree, Some(a)) == Some((PendingOp(tree, a), tree[a].right.value))
  {
    assert NodeOk(tree, a);
  }

  /** The walk that follows a new leaf: `actual = actual->padre` first,
      so it starts at the parent of the `<U>` node `c`. */
  function WalkUpFrom(tree: seq<Node>, c: nat): Option<(BinOp, nat)>
    requires Wf(tree) && c < |tree|
  {
    assert NodeOk(tree, c);
    WalkUp(tree, tree[c].parent)
  }

  // ---------------------------------------------------------------------
  // One iteration of the loop
  // ---------------------------------------------------------------------

  /** The `<E>` branch (Compilador.cpp:268-307). With an operator: the
      children `<E> op <T>`, the operator erased, and the cursor moved to
      the new left `<E>`. Without: the unit children `NULL <T> NULL`,
      nothing erased, and the cursor on the `<T>`. */
  function StepE(s: State, c: nat): (r: State)
    requires Ready(s) && s.cursor == Some(c)
    ensures Ready(r) && Extends(s.tree, r.tree) && Full(r.tree[c])
    ensures r.values == s.values && r.leaves == s.leaves && r.ops == s.ops
  {
    match ScanE(s.tokens, 0)
    case Some(i) =>
      var tree := Expand(s.tree, c, Expr, Op(OpOf(s.tokens[i])), Term, Some(c));
      assert NodeOk(tree, c);
      s.(tokens := RemoveAt(s.tokens, i), tree := tree, cursor := tree[c].left)
    case None =>
      var tree := Expand(s.tree, c, Null, Term, Null, Some(c));
      assert NodeOk(tree, c);
      s.(tree := tree, cursor := tree[c].mid)
  }

  lemma StepEShape(s: State, c: nat)
    requires Ready(s) && s.cursor == Some(c)
    ensures var r := StepE(s, c);
      forall i :: FirstEOp(s.tokens, i) ==>
      && |r.tokens| == |s.tokens| - 1
      && r.tokens[..i] == s.tokens[..i] && r.tokens[i..] == s.tokens[i + 1..]
      && r.cursor == r.tree[c].left
      && (Bare(s.tree[c]) ==> Fresh3(s.tree, r.tree, c, Expr, Op(OpOf(s.tokens[i])), Term, Some(c)))
    ensures var r := StepE(s, c);
      (forall i :: !FirstEOp(s.tokens, i)) ==>
      && r.tokens == s.tokens && r.cursor == r.tree[c].mid
      && (Bare(s.tree[c]) ==> Fresh3(s.tree, r.tree, c, Null, Term, Null, Some(c)))
  {
    match ScanE(s.tokens, 0)
    case Some(i) =>
      assert FirstEOp(s.tokens, i);
      FirstEOpUnique(s.tokens, i);
    case None =>
      NoFirstEOp(s.tokens);
  }

  lemma FirstEOpUnique(t: seq<Token>, i: nat)
    requires FirstEOp(t, i)
    ensures forall j :: FirstEOp(t, j) ==> j == i
  {
    forall j | 0 <= j < |t| && j != i
      ensures !FirstEOp(t, j)
    {
      if j > i {
        assert IsEOp(t, i);
      }
    }
  }


  lemma NoFirstEOp(t: seq<Token>)
    requires ScanE(t, 0).None?
    ensures forall i :: !FirstEOp(t, i)
  {
    forall i | 0 <= i < |t|
      ensures !FirstEOp(t, i)
    {
      if IsEOp(t, i) {
        var k :| 0 <= k < i && t[k] == Open;
        assert !(!IsEOp(t, k) && t[k] != Open);
      }
    }
  }


  /** The `<T>` branch (Compilador.cpp:308-346). With `*` or `/` before any
      `(`: the children `<T> op <T>`, the operator erased, the cursor on
      the new left `<T>`. Otherwise: `NULL <U> NULL`, nothing erased, the
      cursor on the `<U>`. */
  function StepT(s: State, c: nat): (r: State)
    requires Ready(s) && s.cursor == Some(c)
    ensures Ready(r) && Extends(s.tree, r.tree) && Full(r.tree[c])
    ensures r.values == s.values && r.leaves == s.leaves && r.ops == s.ops
  {
    match ScanT(s.tokens, 0)
    case Some(i) =>
      var tree := Expand(s.tree, c, Term, Op(OpOf(s.tokens[i])), Term, Some(c));
      assert NodeOk(tree, c);
      s.(tokens := RemoveAt(s.tokens, i), tree := tree, cursor := tree[c].left)
    case None =>
      var tree := Expand(s.tree, c, Null, Unary, Null, Some(c));
      assert NodeOk(tree, c);
      s.(tree := tree, cursor := tree[c].mid)
  }

  lemma StepTShape(s: State, c: nat)
    requires Ready(s) && s.cursor == Some(c)
    ensures var r := StepT(s, c);
      forall i :: FirstTOp(s.tokens, i) ==>
      && |r.tokens| == |s.tokens| - 1
      && r.tokens[..i] == s.tokens[..i] && r.tokens[i..] == s.tokens[i + 1..]
      && r.cursor == r.tree[c].left
      && (Bare(s.tree[c]) ==> Fresh3(s.tree, r.tree, c, Term, Op(OpOf(s.tokens[i])), Term, Some(c)))
    ensures var r := StepT(s, c);
      (forall i :: !FirstTOp(s.tokens, i)) ==>
      && r.tokens == s.tokens && r.cursor == r.tree[c].mid
      && (Bare(s.tree[c]) ==> Fresh3(s.tree, r.tree, c, Null, Unary, Null, Some(c)))
  {
    match ScanT(s.tokens, 0)
    case Some(i) =>
      assert FirstTOp(s.tokens, i);
      FirstTOpUnique(s.tokens, i);
    case None =>
      NoFirstTOp(s.tokens);
  }

  lemma FirstTOpUnique(t: seq<Token>, i: nat)
    requires FirstTOp(t, i)
    ensures forall j :: FirstTOp(t, j) ==> j == i
  {
    forall j | 0 <= j < |t| && j != i
      ensures !FirstTOp(t, j)
    {
      if j > i {
        assert IsTOp(t, i);
      }
    }
  }


  lemma NoFirstTOp(t: seq<Token>)
    requires ScanT(t, 0).None?
    ensures forall i :: !FirstTOp(t, i)
  {
    forall i | 0 <= i < |t|
      ensures !FirstTOp(t, i)
    {
      if IsTOp(t, i) {
        var k :| 0 <= k < i && t[k] == Open;
        assert !(!IsTOp(t, k) && t[k] != Open);
      }
    }
  }


  /** The `num` case of the `<U>` branch (Compilador.cpp:384-413): the
      children `NULL num NULL`, the `num` erased, the first pending value
      hung below the `num` node as a new leaf, then the upward walk. */
  function StepLeaf(s: State, c: nat, i: nat): (r: State)
    requires Ready(s) && s.cursor == Some(c) && i < |s.tokens|
    ensures Ready(r) && Extends(s.tree, r.tree)
    ensures r.tokens == RemoveAt(s.tokens, i)
    ensures |s.values| > 0 ==> r.values == s.values[1..] && |r.leaves| == |s.leaves| + 1 && r.leaves[..|s.leaves|] == s.leaves
    ensures |s.values| == 0 ==> r.values == [] && r.leaves == s.leaves
    ensures r.ops == s.ops || (|r.ops| == |s.ops| + 1 && r.ops[..|s.ops|] == s.ops)
    ensures WalkUpFrom(r.tree, c).None? ==> r.cursor.None? && r.ops == s.ops
    ensures WalkUpFrom(r.tree, c).Some? ==>
      && r.cursor == Some(WalkUpFrom(r.tree, c).value.1)
      && r.ops == s.ops + [WalkUpFrom(r.tree, c).value.0]
  {
    var t1 := Expand(s.tree, c, Null, NumMark, Null, Some(c));
    assert NodeOk(t1, c);
    var numNode := t1[c].mid.value;
    var tokens := RemoveAt(s.tokens, i);
    var t2 := if |s.values| > 0 then Expand(t1, numNode, Null, Literal(s.values[0]), Null, None) else t1;
    var leaves := if |s.values| > 0 then s.leaves + [t2[numNode].mid.value] else s.leaves;
    var values := if |s.values| > 0 then s.values[1..] else s.values;
    assert Extends(s.tree, t2);
    assert s.tree[c].parent == t2[c].parent;
    assert NodeOk(s.tree, c);
    assert WalkUpFrom(t2, c) == WalkUp(t2, t2[c].parent);
    match WalkUp(t2, t2[c].parent)
    case None => State(tokens, values, t2, None, leaves, s.ops)
    case Some((op, n)) => State(tokens, values, t2, Some(n), leaves, s.ops + [op])
  }

  /** The `<U>` branch (Compilador.cpp:347-414), dispatched on the first
      `num`, `-` or `(`. A `(` gives `( <E> )`, erases the `(` and the
      first `)`; a `-` gives `- <U> NULL` and erases nothing; when none of
      the three is left the step changes nothing at all. */
  function StepU(s: State, c: nat): (r: State)
    requires Ready(s) && s.cursor == Some(c)
    ensures Ready(r) && Extends(s.tree, r.tree)
  {
    match ScanU(s.tokens, 0)
    case None => s
    case Some(i) =>
      if s.tokens[i] == Open then
        var tree := Expand(s.tree, c, LParen, Expr, RParen, Some(c));
        assert NodeOk(tree, c);
        s.(tokens := EraseFirstClose(RemoveAt(s.tokens, i)), tree := tree, cursor := tree[c].mid)
      else if s.tokens[i] == Minus then
        var tree := Expand(s.tree, c, Op(Sub), Unary, Null, Some(c));
        assert NodeOk(tree, c);
        s.(tree := tree, cursor := tree[c].mid)
      else
        StepLeaf(s, c, i)
  }

  /** `i` is where the scan of the `<U>` branch stops: the first `num`,
      `-` or `(`. */
  predicate FirstUHead(t: seq<Token>, i: int) {
    0 <= i < |t| && IsUHead(t, i) && forall k :: 0 <= k < i ==> !IsUHead(t, k)
  }

  /** What each case of the `<U>` branch consumes. A `(` goes, and so does
      the first `)` of what is left, wherever it stands; a `-` stays in the
      stream; a `num` is the leaf step; with no head at all nothing
      changes. */
  lemma StepUShape(s: State, c: nat)
    requires Ready(s) && s.cursor == Some(c)
    ensures var r := StepU(s, c);
      forall i :: FirstUHead(s.tokens, i) && s.tokens[i] == Open ==>
      && r.tokens == EraseFirstClose(RemoveAt(s.tokens, i))
      && r.values == s.values && r.leaves == s.leaves && r.ops == s.ops
      && r.cursor == r.tree[c].mid
      && (Bare(s.tree[c]) ==> Fresh3(s.tree, r.tree, c, LParen, Expr, RParen, Some(c)))
    ensures var r := StepU(s, c);
      forall i :: FirstUHead(s.tokens, i) && s.tokens[i] == Minus ==>
      && r.tokens == s.tokens
      && r.values == s.values && r.leaves == s.leaves && r.ops == s.ops
      && r.cursor == r.tree[c].mid
      && (Bare(s.tree[c]) ==> Fresh3(s.tree, r.tree, c, Op(Sub), Unary, Null, Some(c)))
    ensures forall i :: FirstUHead(s.tokens, i) && s.tokens[i] == Num ==> StepU(s, c) == StepLeaf(s, c, i)
    ensures (forall i :: 0 <= i < |s.tokens| ==> !IsUHead(s.tokens, i)) ==> StepU(s, c) == s
  {
    match ScanU(s.tokens, 0)
    case Some(i) =>
      assert FirstUHead(s.tokens, i);
      FirstUHeadUnique(s.tokens, i);
    case None =>
  }

  lemma FirstUHeadUnique(t: seq<Token>, i: nat)
    requires FirstUHead(t, i)
    ensures forall j :: FirstUHead(t, j) ==> j == i
  {
    forall j | 0 <= j < |t| && j != i
      ensures !FirstUHead(t, j)
    {
      if j > i {
        assert IsUHead(t, i);
      }
    }
  }

  /** One iteration of the loop body, dispatched on the cursor's label. A
      cursor on any other label matches no branch, so the state stays. */
  function Step(s: State): (r: State)
    requires Ready(s) && s.cursor.Some?
    ensures Ready(r) && Extends(s.tree, r.tree)
  {
    var c := s.cursor.value;
    match s.tree[c].sym
    case Expr => StepE(s, c)
    case Term => StepT(s, c)
    case Unary => StepU(s, c)
    case _ => s
  }

  /** The loop of Compilador.cpp:265-266 with at most `fuel` iterations:
      it ends when the tokens run out or the cursor becomes null, and
      yields `None` if the budget runs out first. */
  function Run(s: State, fuel: nat): (r: Option<State>)
    requires Ready(s)
    ensures r.Some? ==> Ready(r.value) && (r.value.tokens == [] || r.value.cursor.None?)
    decreases fuel
  {
    if s.tokens == [] || s.cursor.None? then Some(s)
    else if fuel == 0 then None
    else Run(Step(s), fuel - 1)
  }

  function Parse(tokens: seq<Token>, values: seq<string>, fuel: nat): Option<State> {
    Run(Init(tokens, values), fuel)
  }

  /** A run that ends within a budget ends the same way with any larger
      budget: the budget only decides whether the loop is seen to stop. */
  lemma {:induction false} RunMono(s: State, fuel: nat, more: nat)
    requires Ready(s) && fuel <= more && Run(s, fuel).Some?
    ensures Run(s, more) == Run(s, fuel)
  {
    var r := Unchanged(s, fuel, more);
  }

  /** The loop again, run alongside a second budget `more`. */
  ghost function Unchanged(s: State, fuel: nat, more: nat): (r: Option<State>)
    requires Ready(s) && fuel <= more
    ensures r == Run(s, fuel) && (r.Some? ==> Run(s, more) == r)
    decreases fuel
  {
    if s.tokens == [] || s.cursor.None? then Some(s)
    else if fuel == 0 then None
    else Unchanged(Step(s), fuel - 1, more - 1)
  }

  /** A unary minus is never erased: at a bare `<U>` whose scan stops at a
      `-`, the step hangs `- <U> NULL` and moves to the new `<U>`, which
      sees the same stream. No budget is enough. */
  lemma {:induction false} MinusLoops(s: State, fuel: nat)
    requires Ready(s) && s.cursor.Some? && Bare(s.tree[s.cursor.value]) && s.tree[s.cursor.value].sym == Unary
    requires ScanU(s.tokens, 0).Some? && s.tokens[ScanU(s.tokens, 0).value] == Minus
    ensures Run(s, fuel).None?
    decreases fuel
  {
    var c := s.cursor.value;
    assert Fresh3(s.tree, Step(s).tree, c, Op(Sub), Unary, Null, Some(c));
    if fuel > 0 {
      MinusLoops(Step(s), fuel - 1);
    }
  }

  /** A `<U>` with tokens left but no `num`, `-` or `(` among them (as
      after `1+)`) changes nothing, so the loop never ends either. */
  lemma {:induction false} NoHeadLoops(s: State, fuel: nat)
    requires Ready(s) && s.cursor.Some? && s.tree[s.cursor.value].sym == Unary
    requires s.tokens != [] && ScanU(s.tokens, 0).None?
    ensures Run(s, fuel).None?
    decreases fuel
  {
    if fuel > 0 {
      assert Step(s) == s;
      NoHeadLoops(s, fuel - 1);
    }
  }

  /** `-1` lexes to `- num`: `<E>` and `<T>` find no operator, and the
      `<U>` below them loops on the `-`. */
  lemma MinusOneLoops(fuel: nat)
    ensures Parse([Minus, Num], ["1"], fuel).None?
  {
    var t := [Minus, Num];
    assert ScanE(t, 0).None? && ScanT(t, 0).None? && ScanU(t, 0) == Some(0);
    LeadingMinusLoops(t, ["1"], fuel);
  }

  /** Any stream with no operator for `<E>` or `<T>` whose first `num`,
      `-` or `(` is a `-` makes the parser loop. */
  lemma LeadingMinusLoops(tokens: seq<Token>, values: seq<string>, fuel: nat)
    requires ScanE(tokens, 0).None? && ScanT(tokens, 0).None?
    requires ScanU(tokens, 0).Some? && tokens[ScanU(tokens, 0).value] == Minus
    ensures Parse(tokens, values, fuel).None?
  {
    ExprMinusLoops(Init(tokens, values), fuel);
  }

  /** The same from any bare `<E>` over such a stream. */
  lemma ExprMinusLoops(s: State, fuel: nat)
    requires Ready(s) && s.cursor.Some? && Bare(s.tree[s.cursor.value]) && s.tree[s.cursor.value].sym == Expr
    requires ScanE(s.tokens, 0).None? && ScanT(s.tokens, 0).None?
    requires ScanU(s.tokens, 0).Some? && s.tokens[ScanU(s.tokens, 0).value] == Minus
    ensures Run(s, fuel).None?
  {
    UnitDescent(s);
    RunTwice(s, fuel);
    if fuel >= 2 {
      MinusLoops(Step(Step(s)), fuel - 2);
    }
  }

  /** From a bare `<E>` with no operator for `<E>` or `<T>` to find, two
      steps reach a bare `<U>` over the same stream. */
  lemma UnitDescent(s: State)
    requires Ready(s) && s.cursor.Some? && Bare(s.tree[s.cursor.value]) && s.tree[s.cursor.value].sym == Expr
    requires ScanE(s.tokens, 0).None? && ScanT(s.tokens, 0).None?
    ensures var s1 := Step(s);
      && s1.cursor.Some? && s1.tokens == s.tokens
      && Bare(s1.tree[s1.cursor.value]) && s1.tree[s1.cursor.value].sym == Term
    ensures var s2 := Step(Step(s));
      && s2.cursor.Some? && s2.tokens == s.tokens
      && Bare(s2.tree[s2.cursor.value]) && s2.tree[s2.cursor.value].sym == Unary
  {
    var c := s.cursor.value;
    var s1 := Step(s);
    assert Fresh3(s.tree, s1.tree, c, Null, Term, Null, Some(c));
    var d := s1.cursor.value;
    assert Fresh3(s1.tree, Step(s1).tree, d, Null, Unary, Null, Some(d));
  }

  /** Two turns of the loop over a stream that is not empty. */
  lemma RunTwice(s: State, fuel: nat)
    requires Ready(s) && s.cursor.Some? && s.tokens != []
    requires Step(s).cursor.Some? && Step(s).tokens != []
    ensures fuel >= 2 ==> Run(s, fuel) == Run(Step(Step(s)), fuel - 2)
    ensures fuel < 2 ==> Run(s, fuel).None?
  {
    if fuel >= 1 {
      assert Run(s, fuel) == Run(Step(s), fuel - 1);
    }
  }

  // ---------------------------------------------------------------------
  // What the loop keeps true
  // ---------------------------------------------------------------------

  /** The texts of the leaf nodes, in `ultimos` order. */
  function Texts(tree: seq<Node>, leaves: seq<nat>): (ts: seq<string>)
    requires forall i :: 0 <= i < |leaves| ==> leaves[i] < |tree|
    ensures |ts| == |leaves|
  {
    seq(|leaves|, i requires 0 <= i < |leaves| => Label(tree[leaves[i]].sym))
  }

  /** Every entry of `ultimos` is a literal node of the arena. */
  predicate LeavesOk(tree: seq<Node>, leaves: seq<nat>) {
    forall i :: 0 <= i < |leaves| ==> leaves[i] < |tree| && tree[leaves[i]].sym.Literal?
  }

  /** The loop invariant. Besides a sound arena and a cursor on a node not
      yet expanded, it says that the count of `num` tokens equals the count
      of pending values, that the bound leaves followed by the pending
      values are the original value list `values0`, and that no more
      operators were logged than leaves bound. */
  predicate Inv(s: State, values0: seq<string>) {
    && Ready(s)
    && (s.cursor.Some? ==> Bare(s.tree[s.cursor.value]))
    && CountNum(s.tokens) == |s.values|
    && LeavesOk(s.tree, s.leaves)
    && Texts(s.tree, s.leaves) + s.values == values0
    && |s.ops| <= |s.leaves|
  }

  /** The operator log against `ultimos`: one operator per leaf while the
      cursor is live, and one fewer once the walk has made it null. */
  predicate Balanced(s: State) {
    && (s.cursor.Some? ==> |s.ops| == |s.leaves|)
    && (s.cursor.None? ==> |s.ops| + 1 == |s.leaves|)
  }

  /** One iteration keeps the balance: only the `num` case touches either
      list, adding one leaf and then either one operator or a null cursor. */
  lemma StepBalanced(s: State, values0: seq<string>)
    requires Inv(s, values0) && s.cursor.Some? && Balanced(s)
    ensures Balanced(Step(s))
  {
    var c := s.cursor.value;
    if s.tree[c].sym == Unary {
      match ScanU(s.tokens, 0) {
        case None =>
        case Some(i) =>
          if s.tokens[i] == Num {
            RemoveAtCount(s.tokens, i);
            assert |s.values| > 0;
          }
      }
    }
  }

  lemma TextsExtends(tree: seq<Node>, tree': seq<Node>, leaves: seq<nat>)
    requires Extends(tree, tree') && LeavesOk(tree, leaves)
    ensures LeavesOk(tree', leaves) && Texts(tree', leaves) == Texts(tree, leaves)
  {
  }

  /** What the `num` case builds below a bare cursor `c` of an arena of
      `n` nodes: `NULL num NULL` at `n` to `n + 2`, then `NULL lit NULL`
      below the `num` node at `n + 3` to `n + 5`, with the literal node
      `n + 4` appended to `ultimos`; the cursor lands on a node not yet
      expanded, or becomes null. */
  lemma StepLeafShape(s: State, c: nat, i: nat)
    requires Ready(s) && s.cursor == Some(c) && i < |s.tokens|
    requires Bare(s.tree[c]) && |s.values| > 0
    ensures var r := StepLeaf(s, c, i); var n := |s.tree|;
      && |r.tree| == n + 6
      && r.tree[n + 1].sym == NumMark && r.tree[n + 1].mid == Some(n + 4)
      && r.tree[n + 4].sym == Literal(s.values[0])
      && r.leaves == s.leaves + [n + 4]
      && (r.cursor.Some? ==> Bare(r.tree[r.cursor.value]))
  {
    var n := |s.tree|;
    var t1 := Expand(s.tree, c, Null, NumMark, Null, Some(c));
    assert Fresh3(s.tree, t1, c, Null, NumMark, Null, Some(c));
    assert t1[c].mid == Some(n + 1) && Bare(t1[n + 1]);
    var t2 := Expand(t1, n + 1, Null, Literal(s.values[0]), Null, None);
    assert Fresh3(t1, t2, n + 1, Null, Literal(s.values[0]), Null, None);
    assert StepLeaf(s, c, i).tree == t2;
  }

  /** The `num` case keeps the invariant: it consumes one `num` token and
      the first pending value, whose text becomes the newest leaf. */
  lemma StepLeafInv(s: State, c: nat, i: nat, values0: seq<string>)
    requires Inv(s, values0) && s.cursor == Some(c) && i < |s.tokens| && s.tokens[i] == Num
    ensures |s.values| > 0
    ensures Inv(StepLeaf(s, c, i), values0)
    ensures Texts(StepLeaf(s, c, i).tree, StepLeaf(s, c, i).leaves) == Texts(s.tree, s.leaves) + [s.values[0]]
  {
    RemoveAtCount(s.tokens, i);
    StepLeafShape(s, c, i);
    BindLeafInv(s, StepLeaf(s, c, i), values0);
  }

  /** Binding the first pending value to a new literal node at index
      `|s.tree| + 4` keeps the invariant. */
  lemma BindLeafInv(s: State, r: State, values0: seq<string>)
    requires Inv(s, values0) && |s.values| > 0
    requires Ready(r) && Extends(s.tree, r.tree) && |r.tree| > |s.tree| + 4
    requires r.tree[|s.tree| + 4].sym == Literal(s.values[0])
    requires r.leaves == s.leaves + [|s.tree| + 4] && r.values == s.values[1..]
    requires CountNum(r.tokens) == CountNum(s.tokens) - 1
    requires |r.ops| <= |s.ops| + 1
    requires r.cursor.Some? ==> Bare(r.tree[r.cursor.value])
    ensures Inv(r, values0)
    ensures Texts(r.tree, r.leaves) == Texts(s.tree, s.leaves) + [s.values[0]]
  {
    TextsExtends(s.tree, r.tree, s.leaves);
    assert Texts(r.tree, r.leaves) == Texts(s.tree, s.leaves) + [s.values[0]];
    assert s.values == [s.values[0]] + s.values[1..];
  }

  /** One iteration keeps the invariant. */
  lemma StepInv(s: State, values0: seq<string>)
    requires Inv(s, values0) && s.cursor.Some?
    ensures Inv(Step(s), values0)
  {
    var c := s.cursor.value;
    TextsExtends(s.tree, Step(s).tree, s.leaves);
    match s.tree[c].sym {
      case Expr => StepExprInv(s, values0);
      case Term => StepTermInv(s, values0);
      case Unary => StepUnaryInv(s, values0);
      case _ =>
    }
  }

  lemma StepExprInv(s: State, values0: seq<string>)
    requires Inv(s, values0) && s.cursor.Some? && s.tree[s.cursor.value].sym == Expr
    ensures Inv(Step(s), values0)
  {
    var c := s.cursor.value;
    var r := Step(s);
    TextsExtends(s.tree, r.tree, s.leaves);
    match ScanE(s.tokens, 0) {
      case Some(i) =>
        RemoveAtCount(s.tokens, i);
        assert Fresh3(s.tree, r.tree, c, Expr, Op(OpOf(s.tokens[i])), Term, Some(c));
      case None =>
        assert Fresh3(s.tree, r.tree, c, Null, Term, Null, Some(c));
    }
  }

  lemma StepTermInv(s: State, values0: seq<string>)
    requires Inv(s, values0) && s.cursor.Some? && s.tree[s.cursor.value].sym == Term
    ensures Inv(Step(s), values0)
  {
    var c := s.cursor.value;
    var r := Step(s);
    TextsExtends(s.tree, r.tree, s.leaves);
    match ScanT(s.tokens, 0) {
      case Some(i) =>
        RemoveAtCount(s.tokens, i);
        assert Fresh3(s.tree, r.tree, c, Term, Op(OpOf(s.tokens[i])), Term, Some(c));
      case None =>
        assert Fresh3(s.tree, r.tree, c, Null, Unary, Null, Some(c));
    }
  }

  lemma StepUnaryInv(s: State, values0: seq<string>)
    requires Inv(s, values0) && s.cursor.Some? && s.tree[s.cursor.value].sym == Unary
    ensures Inv(Step(s), values0)
  {
    var c := s.cursor.value;
    var r := Step(s);
    TextsExtends(s.tree, r.tree, s.leaves);
    match ScanU(s.tokens, 0) {
      case None =>
      case Some(i) =>
        if s.tokens[i] == Open {
          RemoveAtCount(s.tokens, i);
          var t := RemoveAt(s.tokens, i);
          match FirstClose(t, 0) {
            case None =>
            case Some(j) => RemoveAtCount(t, j);
          }
          assert Fresh3(s.tree, r.tree, c, LParen, Expr, RParen, Some(c));
        } else if s.tokens[i] == Minus {
          assert Fresh3(s.tree, r.tree, c, Op(Sub), Unary, Null, Some(c));
        } else {
          StepLeafInv(s, c, i, values0);
        }
    }
  }

  /** Any property of states that one iteration keeps is kept by the
      whole loop. */
  lemma RunKeeps(s: State, fuel: nat, p: State -> bool)
    requires Ready(s) && p(s) && Run(s, fuel).Some?
    requires forall x {:trigger Step(x)} :: Ready(x) && x.cursor.Some? && p(x) ==> p(Step(x))
    ensures p(Run(s, fuel).value)
  {
    var r := Keeping(s, fuel, p);
  }

  /** The loop again, carrying `p` along from iteration to iteration. */
  ghost function Keeping(s: State, fuel: nat, p: State -> bool): (r: Option<State>)
    requires Ready(s) && p(s)
    requires forall x {:trigger Step(x)} :: Ready(x) && x.cursor.Some? && p(x) ==> p(Step(x))
    ensures r == Run(s, fuel) && (r.Some? ==> p(r.value))
    decreases fuel
  {
    if s.tokens == [] || s.cursor.None? then Some(s)
    else if fuel == 0 then None
    else Keeping(Step(s), fuel - 1, p)
  }

  /** One turn of the loop. */
  lemma RunOnce(s: State, fuel: nat)
    requires Ready(s) && s.tokens != [] && s.cursor.Some? && Run(s, fuel).Some?
    ensures fuel > 0 && Run(s, fuel) == Run(Step(s), fuel - 1)
  {
  }

  /** The whole loop keeps the invariant. */
  lemma RunInv(s: State, fuel: nat, values0: seq<string>)
    requires Inv(s, values0)
    requires Run(s, fuel).Some?
    ensures Inv(Run(s, fuel).value, values0)
  {
    forall x | Ready(x) && x.cursor.Some? && Inv(x, values0)
      ensures Inv(Step(x), values0)
    {
      StepInv(x, values0);
    }
    RunKeeps(s, fuel, x => Inv(x, values0));
  }

  /** When the parser stops with a token stream whose `num` count matches
      the values, every value has become a leaf if the tokens ran out:
      `ultimos` then lists the literals in their source order, and at most
      one operator was logged per leaf, or one fewer if the cursor ended
      null. */
  lemma ParseLeaves(tokens: seq<Token>, values: seq<string>, fuel: nat)
    requires CountNum(tokens) == |values|
    requires Parse(tokens, values, fuel).Some?
    ensures var s := Parse(tokens, values, fuel).value;
      && Inv(s, values)
      && (s.tokens == [] ==> Texts(s.tree, s.leaves) == values)
      && (s.cursor.Some? ==> |s.ops| == |s.leaves|)
      && (s.cursor.None? ==> |s.ops| + 1 == |s.leaves|)
  {
    var s0 := Init(tokens, values);
    assert Texts(s0.tree, s0.leaves) == [];
    assert Inv(s0, values);
    forall x | Ready(x) && x.cursor.Some? && Inv(x, values) && Balanced(x)
      ensures Inv(Step(x), values) && Balanced(Step(x))
    {
      StepInv(x, values);
      StepBalanced(x, values);
    }
    RunKeeps(s0, fuel, x => Inv(x, values) && Balanced(x));
    var s := Parse(tokens, values, fuel).value;
    if s.tokens == [] {
      assert |s.values| == 0;
    }
  }

  /** The arena after a `num` turn at the bare `<U>` node `c`: `c` gets
      NULL num NULL, and the literal `text` hangs under the num. */
  function LeafGrown(t: seq<Node>, c: nat, text: string): (r: seq<Node>)
    requires c < |t|
    ensures |r| == |t| + 6
  {
    Grown(Grown(t, c, Null, NumMark, Null, Some(c)), |t| + 1, Null, Literal(text), Null, None)
  }

  /** A `num` turn seen whole: the token and the first value go, the arena
      grows by `LeafGrown`, the new literal is the newest leaf, and the
      cursor and log follow the walk up from `c`. */
  lemma LeafStep(s: State, c: nat)
    requires Ready(s) && s.cursor == Some(c) && s.tokens != [] && s.tokens[0] == Num && s.values != []
    requires s.tree[c].sym == Unary && Bare(s.tree[c])
    ensures Wf(LeafGrown(s.tree, c, s.values[0]))
    ensures s.tree[c].parent.Some? ==> s.tree[c].parent.value < |s.tree|
    ensures var t := LeafGrown(s.tree, c, s.values[0]); var w := WalkUp(t, s.tree[c].parent);
      w.Some? ==> Step(s) == State(s.tokens[1..], s.values[1..], t, Some(w.value.1), s.leaves + [|s.tree| + 4], s.ops + [w.value.0])
    ensures var t := LeafGrown(s.tree, c, s.values[0]);
      WalkUp(t, s.tree[c].parent).None? ==> Step(s) == State(s.tokens[1..], s.values[1..], t, None, s.leaves + [|s.tree| + 4], s.ops)
  {
    assert FirstUHead(s.tokens, 0);
    StepUShape(s, c);
    assert Step(s) == StepLeaf(s, c, 0);
    LeafTree(s, c);
    StepLeafShape(s, c, 0);
    assert NodeOk(s.tree, c);
    assert LeafGrown(s.tree, c, s.values[0])[c].parent == s.tree[c].parent;
    assert RemoveAt(s.tokens, 0) == s.tokens[1..];
  }

  lemma LeafTree(s: State, c: nat)
    requires Ready(s) && s.cursor == Some(c) && s.tokens != [] && s.values != [] && Bare(s.tree[c])
    ensures StepLeaf(s, c, 0).tree == LeafGrown(s.tree, c, s.values[0])
  {
    var m := |s.tree|;
    ExpandGrown(s.tree, c, Null, NumMark, Null, Some(c));
    var t1 := Expand(s.tree, c, Null, NumMark, Null, Some(c));
    assert t1[c].mid == Some(m + 1) && Bare(t1[m + 1]);
    ExpandGrown(t1, m + 1, Null, Literal(s.values[0]), Null, None);
  }

  /** An `<E>` or `<T>` turn at a bare node, seen whole: the arena grows by
      `Grown`, the operator found (if any) leaves the stream, and the
      cursor moves to the new left child after an operator and to the new
      middle child otherwise. */
  lemma ExpandStep(s: State, c: nat)
    requires Ready(s) && s.cursor == Some(c) && Bare(s.tree[c])
    ensures s.tree[c].sym == Expr && ScanE(s.tokens, 0).Some? ==>
      var i := ScanE(s.tokens, 0).value;
      i < |s.tokens| && Step(s) == State(RemoveAt(s.tokens, i), s.values,
        Grown(s.tree, c, Expr, Op(OpOf(s.tokens[i])), Term, Some(c)), Some(|s.tree|), s.leaves, s.ops)
    ensures s.tree[c].sym == Expr && ScanE(s.tokens, 0).None? ==>
      Step(s) == State(s.tokens, s.values, Grown(s.tree, c, Null, Term, Null, Some(c)), Some(|s.tree| + 1), s.leaves, s.ops)
    ensures s.tree[c].sym == Term && ScanT(s.tokens, 0).Some? ==>
      var i := ScanT(s.tokens, 0).value;
      i < |s.tokens| && Step(s) == State(RemoveAt(s.tokens, i), s.values,
        Grown(s.tree, c, Term, Op(OpOf(s.tokens[i])), Term, Some(c)), Some(|s.tree|), s.leaves, s.ops)
    ensures s.tree[c].sym == Term && ScanT(s.tokens, 0).None? ==>
      Step(s) == State(s.tokens, s.values, Grown(s.tree, c, Null, Unary, Null, Some(c)), Some(|s.tree| + 1), s.leaves, s.ops)
  {
    if s.tree[c].sym == Expr {
      match ScanE(s.tokens, 0)
      case Some(i) =>
        ExpandGrown(s.tree, c, Expr, Op(OpOf(s.tokens[i])), Term, Some(c));
      case None =>
        ExpandGrown(s.tree, c, Null, Term, Null, Some(c));
    } else if s.tree[c].sym == Term {
      match ScanT(s.tokens, 0)
      case Some(i) =>
        ExpandGrown(s.tree, c, Term, Op(OpOf(s.tokens[i])), Term, Some(c));
      case None =>
        ExpandGrown(s.tree, c, Null, Unary, Null, Some(c));
    }
  }
}
