/** A worked run of the parser on `(2+3)*4`, whose tokens are
    `( num + num ) * num` with the values `2`, `3`, `4`. Each `Trace<k>` is
    the parser state after `k` turns of the loop of Compilador.cpp:265-415,
    written out in full; `TraceStep<k>` shows that one turn of `Step` takes
    each to the next. The `(` and the first `)` go in the same turn, so the
    `*` is found by the `<T>` below the `+`, and the log comes out as
    `[*, +]`. `ParenTimesCompiles` puts the pieces together: the gate lets
    the tokens through, the parse ends with the leaves `2`, `3`, `4` and
    that log, and the announced result is `2 * (3 + 4)`, the integer 14. */
module Walkthrough {
  import opened Results
  import opened Tokens
  import opened Tree
  import opened Parser
  import opened Gate
  import opened Numbers
  import opened Semantics
  import opened Lexer
  import opened Compiler

  /** `Init` on the tokens and values of `(2+3)*4`. */
  function Trace0(): State {
    State([Open, Num, Plus, Num, Close, Star, Num], ["2", "3", "4"],
      [Node(Expr, None, None, None, None)],
      Some(0), [], [])
  }

  /** The state after 1 turn. */
  function Trace1(): State {
    State([Open, Num, Plus, Num, Close, Star, Num], ["2", "3", "4"],
      [Node(Expr, Some(1), Some(2), Some(3), None),
      Node(Null, None, None, None, Some(0)),
      Node(Term, None, None, None, Some(0)),
      Node(Null, None, None, None, Some(0))],
      Some(2), [], [])
  }

  /** The state after 2 turns. */
  function Trace2(): State {
    State([Open, Num, Plus, Num, Close, Star, Num], ["2", "3", "4"],
      [Node(Expr, Some(1), Some(2), Some(3), None),
      Node(Null, None, None, None, Some(0)),
      Node(Term, Some(4), Some(5), Some(6), Some(0)),
      Node(Null, None, None, None, Some(0)),
      Node(Null, None, None, None, Some(2)),
      Node(Unary, None, None, None, Some(2)),
      Node(Null, None, None, None, Some(2))],
      Some(5), [], [])
  }

  /** The state after 3 turns. */
  function Trace3(): State {
    State([Num, Plus, Num, Star, Num], ["2", "3", "4"],
      [Node(Expr, Some(1), Some(2), Some(3), None),
      Node(Null, None, None, None, Some(0)),
      Node(Term, Some(4), Some(5), Some(6), Some(0)),
      Node(Null, None, None, None, Some(0)),
      Node(Null, None, None, None, Some(2)),
      Node(Unary, Some(7), Some(8), Some(9), Some(2)),
      Node(Null, None, None, None, Some(2)),
      Node(LParen, None, None, None, Some(5))]
      + [Node(Expr, None, None, None, Some(5)),
      Node(RParen, None, None, None, Some(5))],
      Some(8), [], [])
  }

  /** The state after 4 turns. */
  function Trace4(): State {
    State([Num, Num, Star, Num], ["2", "3", "4"],
      [Node(Expr, Some(1), Some(2), Some(3), None),
      Node(Null, None, None, None, Some(0)),
      Node(Term, Some(4), Some(5), Some(6), Some(0)),
      Node(Null, None, None, None, Some(0)),
      Node(Null, None, None, None, Some(2)),
      Node(Unary, Some(7), Some(8), Some(9), Some(2)),
      Node(Null, None, None, None, Some(2)),
      Node(LParen, None, None, None, Some(5))]
      + [Node(Expr, Some(10), Some(11), Some(12), Some(5)),
      Node(RParen, None, None, None, Some(5)),
      Node(Expr, None, None, None, Some(8)),
      Node(Op(Add), None, None, None, Some(8)),
      Node(Term, None, None, None, Some(8))],
      Some(10), [], [])
  }

  /** The state after 5 turns. */
  function Trace5(): State {
    State([Num, Num, Star, Num], ["2", "3", "4"],
      [Node(Expr, Some(1), Some(2), Some(3), None),
      Node(Null, None, None, None, Some(0)),
      Node(Term, Some(4), Some(5), Some(6), Some(0)),
      Node(Null, None, None, None, Some(0)),
      Node(Null, None, None, None, Some(2)),
      Node(Unary, Some(7), Some(8), Some(9), Some(2)),
      Node(Null, None, None, None, Some(2)),
      Node(LParen, None, None, None, Some(5))]
      + [Node(Expr, Some(10), Some(11), Some(12), Some(5)),
      Node(RParen, None, None, None, Some(5)),
      Node(Expr, Some(13), Some(14), Some(15), Some(8)),
      Node(Op(Add), None, None, None, Some(8)),
      Node(Term, None, None, None, Some(8)),
      Node(Null, None, None, None, Some(10)),
      Node(Term, None, None, None, Some(10)),
      Node(Null, None, None, None, Some(10))],
      Some(14), [], [])
  }

  /** The state after 6 turns. */
  function Trace6(): State {
    State([Num, Num, Num], ["2", "3", "4"],
      [Node(Expr, Some(1), Some(2), Some(3), None),
      Node(Null, None, None, None, Some(0)),
      Node(Term, Some(4), Some(5), Some(6), Some(0)),
      Node(Null, None, None, None, Some(0)),
      Node(Null, None, None, None, Some(2)),
      Node(Unary, Some(7), Some(8), Some(9), Some(2)),
      Node(Null, None, None, None, Some(2)),
      Node(LParen, None, None, None, Some(5))]
      + [Node(Expr, Some(10), Some(11), Some(12), Some(5)),
      Node(RParen, None, None, None, Some(5)),
      Node(Expr, Some(13), Some(14), Some(15), Some(8)),
      Node(Op(Add), None, None, None, Some(8)),
      Node(Term, None, None, None, Some(8)),
      Node(Null, None, None, None, Some(10)),
      Node(Term, Some(16), Some(17), Some(18), Some(10)),
      Node(Null, None, None, None, Some(10))]
      + [Node(Term, None, None, None, Some(14)),
      Node(Op(Mul), None, None, None, Some(14)),
      Node(Term, None, None, None, Some(14))],
      Some(16), [], [])
  }

  /** The state after 7 turns. */
  function Trace7(): State {
    State([Num, Num, Num], ["2", "3", "4"],
      [Node(Expr, Some(1), Some(2), Some(3), None),
      Node(Null, None, None, None, Some(0)),
      Node(Term, Some(4), Some(5), Some(6), Some(0)),
      Node(Null, None, None, None, Some(0)),
      Node(Null, None, None, None, Some(2)),
      Node(Unary, Some(7), Some(8), Some(9), Some(2)),
      Node(Null, None, None, None, Some(2)),
      Node(LParen, None, None, None, Some(5))]
      + [Node(Expr, Some(10), Some(11), Some(12), Some(5)),
      Node(RParen, None, None, None, Some(5)),
      Node(Expr, Some(13), Some(14), Some(15), Some(8)),
      Node(Op(Add), None, None, None, Some(8)),
      Node(Term, None, None, None, Some(8)),
      Node(Null, None, None, None, Some(10)),
      Node(Term, Some(16), Some(17), Some(18), Some(10)),
      Node(Null, None, None, None, Some(10))]
      + [Node(Term, Some(19), Some(20), Some(21), Some(14)),
      Node(Op(Mul), None, None, None, Some(14)),
      Node(Term, None, None, None, Some(14)),
      Node(Null, None, None, None, Some(16)),
      Node(Unary, None, None, None, Some(16)),
      Node(Null, None, None, None, Some(16))],
      Some(20), [], [])
  }

  /** The state after 8 turns. */
  function Trace8(): State {
    State([Num, Num], ["3", "4"],
      [Node(Expr, Some(1), Some(2), Some(3), None),
      Node(Null, None, None, None, Some(0)),
      Node(Term, Some(4), Some(5), Some(6), Some(0)),
      Node(Null, None, None, None, Some(0)),
      Node(Null, None, None, None, Some(2)),
      Node(Unary, Some(7), Some(8), Some(9), Some(2)),
      Node(Null, None, None, None, Some(2)),
      Node(LParen, None, None, None, Some(5))]
      + [Node(Expr, Some(10), Some(11), Some(12), Some(5)),
      Node(RParen, None, None, None, Some(5)),
      Node(Expr, Some(13), Some(14), Some(15), Some(8)),
      Node(Op(Add), None, None, None, Some(8)),
      Node(Term, None, None, None, Some(8)),
      Node(Null, None, None, None, Some(10)),
      Node(Term, Some(16), Some(17), Some(18), Some(10)),
      Node(Null, None, None, None, Some(10))]
      + [Node(Term, Some(19), Some(20), Some(21), Some(14)),
      Node(Op(Mul), None, None, None, Some(14)),
      Node(Term, None, None, None, Some(14)),
      Node(Null, None, None, None, Some(16)),
      Node(Unary, Some(22), Some(23), Some(24), Some(16)),
      Node(Null, None, None, None, Some(16)),
      Node(Null, None, None, None, Some(20)),
      Node(NumMark, Some(25), Some(26), Some(27), Some(20))]
      + [Node(Null, None, None, None, Some(20)),
      Node(Null, None, None, None, None),
      Node(Literal("2"), None, None, None, None),
      Node(Null, None, None, None, None)],
      Some(18), [26], [Mul])
  }

  /** The state after 9 turns. */
  function Trace9(): State {
    State([Num, Num], ["3", "4"],
      [Node(Expr, Some(1), Some(2), Some(3), None),
      Node(Null, None, None, None, Some(0)),
      Node(Term, Some(4), Some(5), Some(6), Some(0)),
      Node(Null, None, None, None, Some(0)),
      Node(Null, None, None, None, Some(2)),
      Node(Unary, Some(7), Some(8), Some(9), Some(2)),
      Node(Null, None, None, None, Some(2)),
      Node(LParen, None, None, None, Some(5))]
      + [Node(Expr, Some(10), Some(11), Some(12), Some(5)),
      Node(RParen, None, None, None, Some(5)),
      Node(Expr, Some(13), Some(14), Some(15), Some(8)),
      Node(Op(Add), None, None, None, Some(8)),
      Node(Term, None, None, None, Some(8)),
      Node(Null, None, None, None, Some(10)),
      Node(Term, Some(16), Some(17), Some(18), Some(10)),
      Node(Null, None, None, None, Some(10))]
      + [Node(Term, Some(19), Some(20), Some(21), Some(14)),
      Node(Op(Mul), None, None, None, Some(14)),
      Node(Term, Some(28), Some(29), Some(30), Some(14)),
      Node(Null, None, None, None, Some(16)),
      Node(Unary, Some(22), Some(23), Some(24), Some(16)),
      Node(Null, None, None, None, Some(16)),
      Node(Null, None, None, None, Some(20)),
      Node(NumMark, Some(25), Some(26), Some(27), Some(20))]
      + [Node(Null, None, None, None, Some(20)),
      Node(Null, None, None, None, None),
      Node(Literal("2"), None, None, None, None),
      Node(Null, None, None, None, None),
      Node(Null, None, None, None, Some(18)),
      Node(Unary, None, None, None, Some(18)),
      Node(Null, None, None, None, Some(18))],
      Some(29), [26], [Mul])
  }

  /** The state after 10 turns. */
  function Trace10(): State {
    State([Num], ["4"],
      [Node(Expr, Some(1), Some(2), Some(3), None),
      Node(Null, None, None, None, Some(0)),
      Node(Term, Some(4), Some(5), Some(6), Some(0)),
      Node(Null, None, None, None, Some(0)),
      Node(Null, None, None, None, Some(2)),
      Node(Unary, Some(7), Some(8), Some(9), Some(2)),
      Node(Null, None, None, None, Some(2)),
      Node(LParen, None, None, None, Some(5))]
      + [Node(Expr, Some(10), Some(11), Some(12), Some(5)),
      Node(RParen, None, None, None, Some(5)),
      Node(Expr, Some(13), Some(14), Some(15), Some(8)),
      Node(Op(Add), None, None, None, Some(8)),
      Node(Term, None, None, None, Some(8)),
      Node(Null, None, None, None, Some(10)),
      Node(Term, Some(16), Some(17), Some(18), Some(10)),
      Node(Null, None, None, None, Some(10))]
      + [Node(Term, Some(19), Some(20), Some(21), Some(14)),
      Node(Op(Mul), None, None, None, Some(14)),
      Node(Term, Some(28), Some(29), Some(30), Some(14)),
      Node(Null, None, None, None, Some(16)),
      Node(Unary, Some(22), Some(23), Some(24), Some(16)),
      Node(Null, None, None, None, Some(16)),
      Node(Null, None, None, None, Some(20)),
      Node(NumMark, Some(25), Some(26), Some(27), Some(20))]
      + [Node(Null, None, None, None, Some(20)),
      Node(Null, None, None, None, None),
      Node(Literal("2"), None, None, None, None),
      Node(Null, None, None, None, None),
      Node(Null, None, None, None, Some(18)),
      Node(Unary, Some(31), Some(32), Some(33), Some(18)),
      Node(Null, None, None, None, Some(18)),
      Node(Null, None, None, None, Some(29))]
      + [Node(NumMark, Some(34), Some(35), Some(36), Some(29)),
      Node(Null, None, None, None, Some(29)),
      Node(Null, None, None, None, None),
      Node(Literal("3"), None, None, None, None),
      Node(Null, None, None, None, None)],
      Some(12), [26, 35], [Mul, Add])
  }

  /** The state after 11 turns. */
  function Trace11(): State {
    State([Num], ["4"],
      [Node(Expr, Some(1), Some(2), Some(3), None),
      Node(Null, None, None, None, Some(0)),
      Node(Term, Some(4), Some(5), Some(6), Some(0)),
      Node(Null, None, None, None, Some(0)),
      Node(Null, None, None, None, Some(2)),
      Node(Unary, Some(7), Some(8), Some(9), Some(2)),
      Node(Null, None, None, None, Some(2)),
      Node(LParen, None, None, None, Some(5))]
      + [Node(Expr, Some(10), Some(11), Some(12), Some(5)),
      Node(RParen, None, None, None, Some(5)),
      Node(Expr, Some(13), Some(14), Some(15), Some(8)),
      Node(Op(Add), None, None, None, Some(8)),
      Node(Term, Some(37), Some(38), Some(39), Some(8)),
      Node(Null, None, None, None, Some(10)),
      Node(Term, Some(16), Some(17), Some(18), Some(10)),
      Node(Null, None, None, None, Some(10))]
      + [Node(Term, Some(19), Some(20), Some(21), Some(14)),
      Node(Op(Mul), None, None, None, Some(14)),
      Node(Term, Some(28), Some(29), Some(30), Some(14)),
      Node(Null, None, None, None, Some(16)),
      Node(Unary, Some(22), Some(23), Some(24), Some(16)),
      Node(Null, None, None, None, Some(16)),
      Node(Null, None, None, None, Some(20)),
      Node(NumMark, Some(25), Some(26), Some(27), Some(20))]
      + [Node(Null, None, None, None, Some(20)),
      Node(Null, None, None, None, None),
      Node(Literal("2"), None, None, None, None),
      Node(Null, None, None, None, None),
      Node(Null, None, None, None, Some(18)),
      Node(Unary, Some(31), Some(32), Some(33), Some(18)),
      Node(Null, None, None, None, Some(18)),
      Node(Null, None, None, None, Some(29))]
      + [Node(NumMark, Some(34), Some(35), Some(36), Some(29)),
      Node(Null, None, None, None, Some(29)),
      Node(Null, None, None, None, None),
      Node(Literal("3"), None, None, None, None),
      Node(Null, None, None, None, None),
      Node(Null, None, None, None, Some(12)),
      Node(Unary, None, None, None, Some(12)),
      Node(Null, None, None, None, Some(12))],
      Some(38), [26, 35], [Mul, Add])
  }

  /** The state after 12 turns. */
  function Trace12(): State {
    State([], [],
      [Node(Expr, Some(1), Some(2), Some(3), None),
      Node(Null, None, None, None, Some(0)),
      Node(Term, Some(4), Some(5), Some(6), Some(0)),
      Node(Null, None, None, None, Some(0)),
      Node(Null, None, None, None, Some(2)),
      Node(Unary, Some(7), Some(8), Some(9), Some(2)),
      Node(Null, None, None, None, Some(2)),
      Node(LParen, None, None, None, Some(5))]
      + [Node(Expr, Some(10), Some(11), Some(12), Some(5)),
      Node(RParen, None, None, None, Some(5)),
      Node(Expr, Some(13), Some(14), Some(15), Some(8)),
      Node(Op(Add), None, None, None, Some(8)),
      Node(Term, Some(37), Some(38), Some(39), Some(8)),
      Node(Null, None, None, None, Some(10)),
      Node(Term, Some(16), Some(17), Some(18), Some(10)),
      Node(Null, None, None, None, Some(10))]
      + [Node(Term, Some(19), Some(20), Some(21), Some(14)),
      Node(Op(Mul), None, None, None, Some(14)),
      Node(Term, Some(28), Some(29), Some(30), Some(14)),
      Node(Null, None, None, None, Some(16)),
      Node(Unary, Some(22), Some(23), Some(24), Some(16)),
      Node(Null, None, None, None, Some(16)),
      Node(Null, None, None, None, Some(20)),
      Node(NumMark, Some(25), Some(26), Some(27), Some(20))]
      + [Node(Null, None, None, None, Some(20)),
      Node(Null, None, None, None, None),
      Node(Literal("2"), None, None, None, None),
      Node(Null, None, None, None, None),
      Node(Null, None, None, None, Some(18)),
      Node(Unary, Some(31), Some(32), Some(33), Some(18)),
      Node(Null, None, None, None, Some(18)),
      Node(Null, None, None, None, Some(29))]
      + [Node(NumMark, Some(34), Some(35), Some(36), Some(29)),
      Node(Null, None, None, None, Some(29)),
      Node(Null, None, None, None, None),
      Node(Literal("3"), None, None, None, None),
      Node(Null, None, None, None, None),
      Node(Null, None, None, None, Some(12)),
      Node(Unary, Some(40), Some(41), Some(42), Some(12)),
      Node(Null, None, None, None, Some(12))]
      + [Node(Null, None, None, None, Some(38)),
      Node(NumMark, Some(43), Some(44), Some(45), Some(38)),
      Node(Null, None, None, None, Some(38)),
      Node(Null, None, None, None, None),
      Node(Literal("4"), None, None, None, None),
      Node(Null, None, None, None, None)],
      None, [26, 35, 44], [Mul, Add])
  }

  /** The arena after 1 turn: node 0 expanded. */
  lemma TraceGrown1()
    ensures Trace1().tree == Grown(Trace0().tree, 0, Null, Term, Null, Some(0))
  {}

  /** The arena after 2 turns: node 2 expanded. */
  lemma TraceGrown2()
    ensures Trace2().tree == Grown(Trace1().tree, 2, Null, Unary, Null, Some(2))
  {}

  /** The arena after 3 turns: node 5 expanded. */
  lemma TraceGrown3()
    ensures Trace3().tree == Grown(Trace2().tree, 5, LParen, Expr, RParen, Some(5))
  {}

  /** The arena after 4 turns: node 8 expanded. */
  lemma TraceGrown4()
    ensures Trace4().tree == Grown(Trace3().tree, 8, Expr, Op(Add), Term, Some(8))
  {}

  /** The arena after 5 turns: node 10 expanded. */
  lemma TraceGrown5()
    ensures Trace5().tree == Grown(Trace4().tree, 10, Null, Term, Null, Some(10))
  {}

  /** The arena after 6 turns: node 14 expanded. */
  lemma TraceGrown6()
    ensures Trace6().tree == Grown(Trace5().tree, 14, Term, Op(Mul), Term, Some(14))
  {}

  /** The arena after 7 turns: node 16 expanded. */
  lemma TraceGrown7()
    ensures Trace7().tree == Grown(Trace6().tree, 16, Null, Unary, Null, Some(16))
  {}

  /** The arena after 8 turns: a literal hung below the `<U>` node 20. */
  lemma TraceGrown8()
    ensures Trace8().tree == LeafGrown(Trace7().tree, 20, "2")
  {}

  /** The arena after 9 turns: node 18 expanded. */
  lemma TraceGrown9()
    ensures Trace9().tree == Grown(Trace8().tree, 18, Null, Unary, Null, Some(18))
  {}

  /** The arena after 10 turns: a literal hung below the `<U>` node 29. */
  lemma TraceGrown10()
    ensures Trace10().tree == LeafGrown(Trace9().tree, 29, "3")
  {}

  /** The arena after 11 turns: node 12 expanded. */
  lemma TraceGrown11()
    ensures Trace11().tree == Grown(Trace10().tree, 12, Null, Unary, Null, Some(12))
  {}

  /** The arena after 12 turns: a literal hung below the `<U>` node 38. */
  lemma TraceGrown12()
    ensures Trace12().tree == LeafGrown(Trace11().tree, 38, "4")
  {}

  /** Turn 1: the `<E>` at node 0. */
  lemma TraceStep0()
    requires Ready(Trace0())
    ensures Trace0().cursor.Some? && Step(Trace0()) == Trace1()
  {
    var s := Trace0();
    var n := Trace1();
    assert s.tree[0] == Node(Expr, None, None, None, None);
    assert ScanE(s.tokens, 0) == None;
    ExpandStep(s, 0);
    TraceGrown1();
    assert Step(s) == State(n.tokens, n.values, n.tree, n.cursor, n.leaves, n.ops);
  }

  /** Turn 2: the `<T>` at node 2. */
  lemma TraceStep1()
    requires Ready(Trace1())
    ensures Trace1().cursor.Some? && Step(Trace1()) == Trace2()
  {
    var s := Trace1();
    var n := Trace2();
    assert s.tree[2] == Node(Term, None, None, None, Some(0));
    assert ScanT(s.tokens, 0) == None;
    ExpandStep(s, 2);
    TraceGrown2();
    assert Step(s) == State(n.tokens, n.values, n.tree, n.cursor, n.leaves, n.ops);
  }

  /** Turn 3: the `<U>` at node 5. */
  lemma TraceStep2()
    requires Ready(Trace2())
    ensures Trace2().cursor.Some? && Step(Trace2()) == Trace3()
  {
    var s := Trace2();
    var n := Trace3();
    assert s.tree[5] == Node(Unary, None, None, None, Some(2));
    assert ScanU(s.tokens, 0) == Some(0);
    assert FirstUHead(s.tokens, 0);
    StepUShape(s, 5);
    ExpandGrown(s.tree, 5, LParen, Expr, RParen, Some(5));
    ParensErased(s.tokens);
    TraceGrown3();
    assert Step(s) == State(n.tokens, n.values, n.tree, n.cursor, n.leaves, n.ops);
  }

  /** The `(` goes, and with it the first `)` of what is left. */
  lemma ParensErased(t: seq<Token>)
    requires t == [Open, Num, Plus, Num, Close, Star, Num]
    ensures EraseFirstClose(RemoveAt(t, 0)) == [Num, Plus, Num, Star, Num]
  {
    var none: seq<Token> := [];
    var rest := [Num, Plus, Num, Close, Star, Num];
    assert t == none + [Open] + rest;
    RemoveAtJoin(none, Open, rest);
    assert rest == [Num, Plus, Num] + [Close] + [Star, Num];
    RemoveAtJoin([Num, Plus, Num], Close, [Star, Num]);
    assert none + rest == rest && [Num, Plus, Num] + [Star, Num] == [Num, Plus, Num, Star, Num];
    assert rest[3] == Close && forall k :: 0 <= k < 3 ==> rest[k] != Close;
    assert EraseFirstClose(rest) == RemoveAt(rest, 3);
  }

  /** Turn 4: the `<E>` at node 8. */
  lemma TraceStep3()
    requires Ready(Trace3())
    ensures Trace3().cursor.Some? && Step(Trace3()) == Trace4()
  {
    var s := Trace3();
    var n := Trace4();
    assert s.tree[8] == Node(Expr, None, None, None, Some(5));
    assert ScanE(s.tokens, 0) == Some(1);
    ExpandStep(s, 8);
    TraceGrown4();
    assert RemoveAt(s.tokens, 1) == n.tokens;
    assert Step(s) == State(n.tokens, n.values, n.tree, n.cursor, n.leaves, n.ops);
  }

  /** Turn 5: the `<E>` at node 10. */
  lemma TraceStep4()
    requires Ready(Trace4())
    ensures Trace4().cursor.Some? && Step(Trace4()) == Trace5()
  {
    var s := Trace4();
    var n := Trace5();
    assert s.tree[10] == Node(Expr, None, None, None, Some(8));
    assert ScanE(s.tokens, 0) == None;
    ExpandStep(s, 10);
    TraceGrown5();
    assert Step(s) == State(n.tokens, n.values, n.tree, n.cursor, n.leaves, n.ops);
  }

  /** Turn 6: the `<T>` at node 14. */
  lemma TraceStep5()
    requires Ready(Trace5())
    ensures Trace5().cursor.Some? && Step(Trace5()) == Trace6()
  {
    var s := Trace5();
    var n := Trace6();
    assert s.tree[14] == Node(Term, None, None, None, Some(10));
    assert ScanT(s.tokens, 0) == Some(2);
    ExpandStep(s, 14);
    TraceGrown6();
    assert RemoveAt(s.tokens, 2) == n.tokens;
    assert Step(s) == State(n.tokens, n.values, n.tree, n.cursor, n.leaves, n.ops);
  }

  /** Turn 7: the `<T>` at node 16. */
  lemma TraceStep6()
    requires Ready(Trace6())
    ensures Trace6().cursor.Some? && Step(Trace6()) == Trace7()
  {
    var s := Trace6();
    var n := Trace7();
    assert s.tree[16] == Node(Term, None, None, None, Some(14));
    assert ScanT(s.tokens, 0) == None;
    ExpandStep(s, 16);
    TraceGrown7();
    assert Step(s) == State(n.tokens, n.values, n.tree, n.cursor, n.leaves, n.ops);
  }

  lemma TraceUp7At14(t: seq<Node>)
    requires t == Trace8().tree && Wf(t)
    ensures WalkUp(t, Some(14)) == Some((Mul, 18))
  {
    assert Pending(t, 14) && PendingOp(t, 14) == Mul && t[14].right == Some(18);
    WalkOne(t, 14);
  }

  lemma TraceUp7At16(t: seq<Node>)
    requires t == Trace8().tree && Wf(t)
    ensures WalkUp(t, Some(16)) == WalkUp(t, Some(14))
  {
    assert !Pending(t, 16) && t[16].parent == Some(14);
    WalkOne(t, 16);
  }

  /** After the leaf `2` the walk up stops at node 14, whose `Mul` is
      still waiting for its right operand. */
  lemma TraceWalk7(t: seq<Node>)
    requires t == Trace8().tree && Wf(t)
    ensures WalkUp(t, Some(16)) == Some((Mul, 18))
  {
    TraceUp7At14(t);
    TraceUp7At16(t);
  }

  /** Turn 8: the `<U>` at node 20. */
  lemma TraceStep7()
    requires Ready(Trace7())
    ensures Trace7().cursor.Some? && Step(Trace7()) == Trace8()
  {
    var s := Trace7();
    assert s.tree[20] == Node(Unary, None, None, None, Some(16));
    LeafStep(s, 20);
    TraceGrown8();
    var n := Trace8();
    TraceWalk7(n.tree);
    assert s.tokens[1..] == n.tokens && s.values[1..] == n.values;
    assert s.leaves + [|s.tree| + 4] == n.leaves && s.ops + [Mul] == n.ops;
    assert Step(s) == State(n.tokens, n.values, n.tree, n.cursor, n.leaves, n.ops);
  }

  /** Turn 9: the `<T>` at node 18. */
  lemma TraceStep8()
    requires Ready(Trace8())
    ensures Trace8().cursor.Some? && Step(Trace8()) == Trace9()
  {
    var s := Trace8();
    var n := Trace9();
    assert s.tree[18] == Node(Term, None, None, None, Some(14));
    assert ScanT(s.tokens, 0) == None;
    ExpandStep(s, 18);
    TraceGrown9();
    assert Step(s) == State(n.tokens, n.values, n.tree, n.cursor, n.leaves, n.ops);
  }

  lemma TraceUp9At8(t: seq<Node>)
    requires t == Trace10().tree && Wf(t)
    ensures WalkUp(t, Some(8)) == Some((Add, 12))
  {
    assert Pending(t, 8) && PendingOp(t, 8) == Add && t[8].right == Some(12);
    WalkOne(t, 8);
  }

  lemma TraceUp9At10(t: seq<Node>)
    requires t == Trace10().tree && Wf(t)
    ensures WalkUp(t, Some(10)) == WalkUp(t, Some(8))
  {
    assert !Pending(t, 10) && t[10].parent == Some(8);
    WalkOne(t, 10);
  }

  lemma TraceUp9At14(t: seq<Node>)
    requires t == Trace10().tree && Wf(t)
    ensures WalkUp(t, Some(14)) == WalkUp(t, Some(10))
  {
    assert !Pending(t, 14) && t[14].parent == Some(10);
    WalkOne(t, 14);
  }

  lemma TraceUp9At18(t: seq<Node>)
    requires t == Trace10().tree && Wf(t)
    ensures WalkUp(t, Some(18)) == WalkUp(t, Some(14))
  {
    assert !Pending(t, 18) && t[18].parent == Some(14);
    WalkOne(t, 18);
  }

  /** After the leaf `3` the walk up stops at node 8, whose `Add` is
      still waiting for its right operand. */
  lemma TraceWalk9(t: seq<Node>)
    requires t == Trace10().tree && Wf(t)
    ensures WalkUp(t, Some(18)) == Some((Add, 12))
  {
    TraceUp9At8(t);
    TraceUp9At10(t);
    TraceUp9At14(t);
    TraceUp9At18(t);
  }

  /** Turn 10: the `<U>` at node 29. */
  lemma TraceStep9()
    requires Ready(Trace9())
    ensures Trace9().cursor.Some? && Step(Trace9()) == Trace10()
  {
    var s := Trace9();
    assert s.tree[29] == Node(Unary, None, None, None, Some(18));
    LeafStep(s, 29);
    TraceGrown10();
    var n := Trace10();
    TraceWalk9(n.tree);
    assert s.tokens[1..] == n.tokens && s.values[1..] == n.values;
    assert s.leaves + [|s.tree| + 4] == n.leaves && s.ops + [Add] == n.ops;
    assert Step(s) == State(n.tokens, n.values, n.tree, n.cursor, n.leaves, n.ops);
  }

  /** Turn 11: the `<T>` at node 12. */
  lemma TraceStep10()
    requires Ready(Trace10())
    ensures Trace10().cursor.Some? && Step(Trace10()) == Trace11()
  {
    var s := Trace10();
    var n := Trace11();
    assert s.tree[12] == Node(Term, None, None, None, Some(8));
    assert ScanT(s.tokens, 0) == None;
    ExpandStep(s, 12);
    TraceGrown11();
    assert Step(s) == State(n.tokens, n.values, n.tree, n.cursor, n.leaves, n.ops);
  }

  lemma TraceUp11At0(t: seq<Node>)
    requires t == Trace12().tree && Wf(t)
    ensures WalkUp(t, Some(0)).None?
  {
    assert !Pending(t, 0) && t[0].parent == None;
    WalkOne(t, 0);
  }

  lemma TraceUp11At2(t: seq<Node>)
    requires t == Trace12().tree && Wf(t)
    ensures WalkUp(t, Some(2)) == WalkUp(t, Some(0))
  {
    assert !Pending(t, 2) && t[2].parent == Some(0);
    WalkOne(t, 2);
  }

  lemma TraceUp11At5(t: seq<Node>)
    requires t == Trace12().tree && Wf(t)
    ensures WalkUp(t, Some(5)) == WalkUp(t, Some(2))
  {
    assert !Pending(t, 5) && t[5].parent == Some(2);
    WalkOne(t, 5);
  }

  lemma TraceUp11At8(t: seq<Node>)
    requires t == Trace12().tree && Wf(t)
    ensures WalkUp(t, Some(8)) == WalkUp(t, Some(5))
  {
    assert !Pending(t, 8) && t[8].parent == Some(5);
    WalkOne(t, 8);
  }

  lemma TraceUp11At12(t: seq<Node>)
    requires t == Trace12().tree && Wf(t)
    ensures WalkUp(t, Some(12)) == WalkUp(t, Some(8))
  {
    assert !Pending(t, 12) && t[12].parent == Some(8);
    WalkOne(t, 12);
  }

  /** After the leaf `4` the walk up meets no pending operator: the
      cursor becomes null. */
  lemma TraceWalk11(t: seq<Node>)
    requires t == Trace12().tree && Wf(t)
    ensures WalkUp(t, Some(12)).None?
  {
    TraceUp11At0(t);
    TraceUp11At2(t);
    TraceUp11At5(t);
    TraceUp11At8(t);
    TraceUp11At12(t);
  }

  /** Turn 12: the `<U>` at node 38. */
  lemma TraceStep11()
    requires Ready(Trace11())
    ensures Trace11().cursor.Some? && Step(Trace11()) == Trace12()
  {
    var s := Trace11();
    assert s.tree[38] == Node(Unary, None, None, None, Some(12));
    LeafStep(s, 38);
    TraceGrown12();
    var n := Trace12();
    TraceWalk11(n.tree);
    assert s.tokens[1..] == n.tokens && s.values[1..] == n.values;
    assert s.leaves + [|s.tree| + 4] == n.leaves && s.ops == n.ops;
    assert Step(s) == State(n.tokens, n.values, n.tree, n.cursor, n.leaves, n.ops);
  }

  /** From the state after 11 turns the loop ends after 1 more. */
  lemma TraceRun11()
    requires Ready(Trace11())
    ensures Run(Trace11(), 1) == Some(Trace12())
  {
    TraceStep11();
  }

  /** From the state after 10 turns the loop ends after 2 more. */
  lemma TraceRun10()
    requires Ready(Trace10())
    ensures Run(Trace10(), 2) == Some(Trace12())
  {
    TraceStep10();
    TraceRun11();
  }

  /** From the state after 9 turns the loop ends after 3 more. */
  lemma TraceRun9()
    requires Ready(Trace9())
    ensures Run(Trace9(), 3) == Some(Trace12())
  {
    TraceStep9();
    TraceRun10();
  }

  /** From the state after 8 turns the loop ends after 4 more. */
  lemma TraceRun8()
    requires Ready(Trace8())
    ensures Run(Trace8(), 4) == Some(Trace12())
  {
    TraceStep8();
    TraceRun9();
  }

  /** From the state after 7 turns the loop ends after 5 more. */
  lemma TraceRun7()
    requires Ready(Trace7())
    ensures Run(Trace7(), 5) == Some(Trace12())
  {
    TraceStep7();
    TraceRun8();
  }

  /** From the state after 6 turns the loop ends after 6 more. */
  lemma TraceRun6()
    requires Ready(Trace6())
    ensures Run(Trace6(), 6) == Some(Trace12())
  {
    TraceStep6();
    TraceRun7();
  }

  /** From the state after 5 turns the loop ends after 7 more. */
  lemma TraceRun5()
    requires Ready(Trace5())
    ensures Run(Trace5(), 7) == Some(Trace12())
  {
    TraceStep5();
    TraceRun6();
  }

  /** From the state after 4 turns the loop ends after 8 more. */
  lemma TraceRun4()
    requires Ready(Trace4())
    ensures Run(Trace4(), 8) == Some(Trace12())
  {
    TraceStep4();
    TraceRun5();
  }

  /** From the state after 3 turns the loop ends after 9 more. */
  lemma TraceRun3()
    requires Ready(Trace3())
    ensures Run(Trace3(), 9) == Some(Trace12())
  {
    TraceStep3();
    TraceRun4();
  }

  /** From the state after 2 turns the loop ends after 10 more. */
  lemma TraceRun2()
    requires Ready(Trace2())
    ensures Run(Trace2(), 10) == Some(Trace12())
  {
    TraceStep2();
    TraceRun3();
  }

  /** From the state after 1 turns the loop ends after 11 more. */
  lemma TraceRun1()
    requires Ready(Trace1())
    ensures Run(Trace1(), 11) == Some(Trace12())
  {
    TraceStep1();
    TraceRun2();
  }

  /** From the state after 0 turns the loop ends after 12 more. */
  lemma TraceRun0()
    requires Ready(Trace0())
    ensures Run(Trace0(), 12) == Some(Trace12())
  {
    TraceStep0();
    TraceRun1();
  }

  /** The parse of `(2+3)*4` ends after twelve turns with every token
      consumed and the cursor gone, with the literals `2`, `3`, `4` bound
      in that order and the log `[*, +]`; any larger budget gives the same
      state. */
  lemma ParenTimesParse(fuel: nat)
    requires fuel >= 12
    ensures Parse([Open, Num, Plus, Num, Close, Star, Num], ["2", "3", "4"], fuel) == Some(Trace12())
    ensures Trace12().tokens == [] && Trace12().cursor.None? && Trace12().ops == [Mul, Add]
    ensures LeavesOk(Trace12().tree, Trace12().leaves)
    ensures Texts(Trace12().tree, Trace12().leaves) == ["2", "3", "4"]
  {
    var s0 := Init([Open, Num, Plus, Num, Close, Star, Num], ["2", "3", "4"]);
    assert s0 == Trace0();
    TraceRun0();
    RunMono(s0, 12, fuel);
    TraceLeaves(Trace12());
  }

  /** The three literal nodes the parse binds, in order. */
  lemma TraceLeaves(s: State)
    requires s == Trace12()
    ensures LeavesOk(s.tree, s.leaves) && Texts(s.tree, s.leaves) == ["2", "3", "4"]
  {
    assert s.leaves == [26, 35, 44];
    assert s.tree[26].sym == Literal("2") && s.tree[35].sym == Literal("3") && s.tree[44].sym == Literal("4");
  }

  /** The gate lets the tokens of `(2+3)*4` through: the `+` has a `num`
      two places on and no `+` or `-` before the `)`. */
  lemma ParenTimesPasses()
    ensures !Flags([Open, Num, Plus, Num, Close, Star, Num], 0)
  {
  }

  /** The reference value of what that parse leaves is `2 * (3 + 4)`, an
      integer 14, where the usual reading of the input would give 20. */
  lemma ParenTimesValue()
    ensures Reference(["2", "3", "4"], [Mul, Add]) == Success(Number(14.0, false))
  {
    var leaves := ["2", "3", "4"];
    ReadSmall(leaves);
    FoldMulAdd(2.0, 3.0, 4.0);
    assert [2.0, 3.0, 4.0][3 - 1 - 2..] == [2.0, 3.0, 4.0];
  }

  /** Any line that lexes to `( num + num ) * num` with the values `2`,
      `3`, `4` — `(2+3)*4` with or without spaces — compiles to the
      integer 14, given a budget of at least twelve turns. */
  lemma ParenTimesCompiles(input: string, fuel: nat)
    requires Lex(input) == Success(Lexed([Open, Num, Plus, Num, Close, Star, Num], ["2", "3", "4"]))
    requires fuel >= 12
    ensures Compile(input, fuel) == Success(Number(14.0, false))
  {
    ParenTimesPasses();
    ParenTimesParse(fuel);
    ParenTimesValue();
  }

  /** A log `[*, +]` over three values folds from the right: `a * (b + c)`. */
  lemma FoldMulAdd(a: real, b: real, c: real)
    ensures Fold([a, b, c], [Mul, Add]).Success?
    ensures Fold([a, b, c], [Mul, Add]).value == a * (b + c)
  {
    assert [a, b, c][1..] == [b, c] && [b, c][1..] == [c];
    var none: seq<BinOp> := [];
    assert [Mul, Add][1..] == [Add] && [Add][1..] == none;
    assert Fold([c], none) == Success(c);
    assert Fold([b, c], [Add]) == Success(b + c);
  }

  lemma ReadSmall(leaves: seq<string>)
    requires leaves == ["2", "3", "4"]
    ensures ReadAll(leaves) == Success(([2.0, 3.0, 4.0], false))
  {
    ReadDigit(leaves[0]);
    ReadDigit(leaves[1]);
    ReadDigit(leaves[2]);
    ReadAllErrors(leaves);
    var r := ReadAll(leaves);
    var vals := r.value.0;
    assert Stof(leaves[0]) == Some(vals[0]) && Stof(leaves[1]) == Some(vals[1]) && Stof(leaves[2]) == Some(vals[2]);
    assert vals == [2.0, 3.0, 4.0];
  }

  lemma ReadDigit(w: string)
    requires |w| == 1 && IsDigit(w[0])
    ensures DotCount(w) == 0 && Stof(w) == Some(DigitValue(w[0]) as real)
  {
    assert w[1..] == [] && w[..0] == [];
    StofDigits(w);
  }
}
