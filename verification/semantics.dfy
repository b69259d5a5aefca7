/** What the generated code computes, stated without registers: the
    literals are read in order, and the operator log folds the trailing
    literals from the right. `EvaluateGenerated` shows that running the
    output of `generarLenguaje` through `resolverOperacion`
    (Compilador.cpp:422-567) gives exactly this. */
module Semantics {
  import opened Results
  import opened Tokens
  import opened CodeGen
  import opened Numbers
  import opened Evaluator

  /** Read every literal, front to back, stopping at the first one that
      cannot be read: its values, and whether any of them is a float. */
  function ReadAll(leaves: seq<string>): (r: Result<(seq<real>, bool)>)
    ensures r.Success? <==> forall i :: 0 <= i < |leaves| ==> DotCount(leaves[i]) <= 1 && Stof(leaves[i]).Some?
    ensures r.Success? ==> |r.value.0| == |leaves|
    ensures r.Success? ==> forall i :: 0 <= i < |leaves| ==> Stof(leaves[i]) == Some(r.value.0[i])
    decreases |leaves|
  {
    if leaves == [] then Success(([], false))
    else
      var x :- Read(leaves[0]);
      var q :- ReadAll(leaves[1..]);
      ShiftAll(leaves);
      var vs := [x.0] + q.0;
      assert forall i :: 1 <= i < |leaves| ==> vs[i] == q.0[i - 1];
      Success((vs, x.1 || q.1))
  }

  lemma ShiftAll(leaves: seq<string>)
    requires leaves != []
    ensures forall i :: 1 <= i < |leaves| ==> leaves[1..][i - 1] == leaves[i]
  {
  }

  lemma ReadAllFront(leaves: seq<string>, j: nat)
    requires j < |leaves|
    ensures ReadAll(leaves[j..])
         == (var x :- Read(leaves[j]); var q :- ReadAll(leaves[j + 1..]); Success(([x.0] + q.0, x.1 || q.1)))
  {
    assert leaves[j..][0] == leaves[j] && leaves[j..][1..] == leaves[j + 1..];
  }

  /** The operators applied right to left: `v0 op0 (v1 op1 (... vm))`. */
  function Fold(vals: seq<real>, ops: seq<BinOp>): (r: Result<real>)
    requires |vals| == |ops| + 1
    ensures r.Failure? ==> r.error == DivisionByZero && exists i :: 0 <= i < |ops| && ops[i] == Div
    decreases |ops|
  {
    if ops == [] then Success(vals[0])
    else
      var rest :- Fold(vals[1..], ops[1..]);
      ApplyOp(ops[0], vals[0], rest)
  }

  function Sum(vals: seq<real>): real
    decreases |vals|
  {
    if vals == [] then 0.0 else vals[0] + Sum(vals[1..])
  }

  /** With only `+` in the log, the fold is the sum of the literals. */
  lemma {:induction false} FoldAdds(vals: seq<real>, ops: seq<BinOp>)
    requires |vals| == |ops| + 1
    requires forall i :: 0 <= i < |ops| ==> ops[i] == Add
    ensures Fold(vals, ops) == Success(Sum(vals))
    decreases |ops|
  {
    if ops != [] {
      assert forall i :: 0 <= i < |ops[1..]| ==> ops[1..][i] == ops[i + 1];
      FoldAdds(vals[1..], ops[1..]);
    }
  }

  /** The fold can be computed from the inside out: the innermost
      operation first, then the fold of what is left around its result. */
  lemma {:induction false} FoldInner(ws: seq<real>, os: seq<BinOp>, a: real)
    requires |ws| == |os| >= 1
    ensures Fold(ws + [a], os)
         == (var b :- ApplyOp(os[|os| - 1], ws[|ws| - 1], a); Fold(ws[..|ws| - 1] + [b], os[..|os| - 1]))
    decreases |os|
  {
    var k := |os|;
    assert (ws + [a])[1..] == ws[1..] + [a];
    if k > 1 {
      FoldInner(ws[1..], os[1..], a);
      assert ws[1..][|ws| - 2] == ws[k - 1] && os[1..][k - 2] == os[k - 1];
      assert ws[1..][..k - 2] == ws[1..k - 1] && os[1..][..k - 2] == os[1..k - 1];
      match ApplyOp(os[k - 1], ws[k - 1], a)
      case Failure(_) =>
      case Success(b) =>
        var ws' := ws[..k - 1] + [b];
        assert ws'[0] == ws[0] && ws'[1..] == ws[1..k - 1] + [b];
        assert os[..k - 1][0] == os[0] && os[..k - 1][1..] == os[1..k - 1];
    }
  }

  /** The first `j` registers are kept, the next `|vals|` hold `vals`, the
      rest are kept. */
  function Store(regs: seq<real>, j: nat, vals: seq<real>): (r: seq<real>)
    requires j + |vals| <= |regs|
    ensures |r| == |regs|
    ensures forall i :: 0 <= i < |vals| ==> r[j + i] == vals[i]
  {
    regs[..j] + vals + regs[j + |vals|..]
  }

  /** The code starts with one load per leaf. */
  predicate LoadsFirst(code: seq<Instr>, leaves: seq<string>) {
    && |leaves| < |code|
    && forall i :: 0 <= i < |leaves| ==> code[i] == Load(i, leaves[i])
  }

  /** Running the loads from line `j` on reads the remaining literals in
      order into their registers, or stops with the first literal's error. */
  lemma {:induction false} LoadPhase(code: seq<Instr>, leaves: seq<string>, j: nat, m: Machine)
    requires LoadsFirst(code, leaves) && j <= |leaves| && |m.regs| == |code|
    ensures var p := ReadAll(leaves[j..]);
      p.Failure? ==> ExecFrom(code, leaves, j, m) == Failure(p.error)
    ensures var p := ReadAll(leaves[j..]);
      p.Success? ==>
        ExecFrom(code, leaves, j, m)
        == ExecFrom(code, leaves, |leaves|, Machine(Store(m.regs, j, p.value.0), m.anyFloat || p.value.1))
    decreases |leaves| - j
  {
    var n := |leaves|;
    if j == n {
      assert leaves[j..] == [];
      assert Store(m.regs, j, []) == m.regs;
    } else {
      assert code[j] == Load(j, leaves[j]);
      ReadAllFront(leaves, j);
      match Read(leaves[j])
      case Failure(_) =>
      case Success(x) =>
        var m1 := Machine(m.regs[j := x.0], m.anyFloat || x.1);
        assert ExecLine(code[j], leaves, m) == Success(m1);
        assert ExecFrom(code, leaves, j, m) == ExecFrom(code, leaves, j + 1, m1);
        LoadPhase(code, leaves, j + 1, m1);
        match ReadAll(leaves[j + 1..])
        case Failure(e) =>
        case Success(q) =>
          StoreFront(m.regs, j, x.0, q.0);
    }
  }

  lemma StoreFront(regs: seq<real>, j: nat, v: real, vals: seq<real>)
    requires j + 1 + |vals| <= |regs|
    ensures Store(regs[j := v], j + 1, vals) == Store(regs, j, [v] + vals)
  {
    var u := regs[j := v];
    assert u[..j + 1] == regs[..j] + [v];
    assert u[j + 1 + |vals|..] == regs[j + 1 + |vals|..];
    assert regs[..j] + [v] + vals == regs[..j] + ([v] + vals);
  }

  /** The combining part of generated code for `n` leaves and the log `ops`. */
  predicate CombinesNext(code: seq<Instr>, n: nat, ops: seq<BinOp>)
    requires |ops| < n
  {
    && |code| == n + |ops| + 1
    && forall k :: 0 <= k < |ops| ==> code[n + k] == CombineLine(n, ops, k)
  }

  /** The combining lines as a loop over values: `acc` starts as the
      last literal, and step `k` combines the literal `n - 2 - k` with it
      using the `k`-th operator from the back of the log. */
  function Combining(vals: seq<real>, ops: seq<BinOp>, k: nat, acc: real): (r: Result<real>)
    requires |ops| < |vals| && k <= |ops|
    ensures r.Failure? ==> r.error == DivisionByZero
    decreases |ops| - k
  {
    if k == |ops| then Success(acc)
    else
      var b :- ApplyOp(ops[|ops| - 1 - k], vals[|vals| - 2 - k], acc);
      Combining(vals, ops, k + 1, b)
  }

  lemma CombiningStep(vals: seq<real>, ops: seq<BinOp>, k: nat, acc: real)
    requires |ops| < |vals| && k < |ops|
    ensures Combining(vals, ops, k, acc)
         == (var b :- ApplyOp(ops[|ops| - 1 - k], vals[|vals| - 2 - k], acc); Combining(vals, ops, k + 1, b))
  {
  }

  lemma CombiningStepSuccess(vals: seq<real>, ops: seq<BinOp>, k: nat, acc: real, b: real)
    requires |ops| < |vals| && k < |ops|
    requires ApplyOp(ops[|ops| - 1 - k], vals[|vals| - 2 - k], acc) == Success(b)
    ensures Combining(vals, ops, k, acc) == Combining(vals, ops, k + 1, b)
  {
  }

  /** After `k` steps of the loop, `ws` and `os` are the literals and the
      operators it has not used yet. */
  predicate Unused(vals: seq<real>, ops: seq<BinOp>, k: nat, ws: seq<real>, os: seq<BinOp>)
    requires |ops| < |vals| && k <= |ops|
  {
    && |ws| == |os| == |ops| - k
    && (forall t :: 0 <= t < |os| ==> os[t] == ops[t])
    && (forall t :: 0 <= t < |ws| ==> ws[t] == vals[|vals| - 1 - |ops| + t])
  }

  /** The loop computes the right fold: what is left of it after `k`
      steps is the fold of the unused literals and operators around
      `acc`, innermost. */
  lemma {:induction false} CombiningFold(vals: seq<real>, ops: seq<BinOp>, k: nat, acc: real,
                                         ws: seq<real>, os: seq<BinOp>)
    requires |ops| < |vals| && k <= |ops| && Unused(vals, ops, k, ws, os)
    ensures Combining(vals, ops, k, acc) == Fold(ws + [acc], os)
    decreases |ops| - k
  {
    if k == |ops| {
      assert ws + [acc] == [acc];
    } else {
      var j := |os| - 1;
      FoldInner(ws, os, acc);
      CombiningStep(vals, ops, k, acc);
      assert os[j] == ops[|ops| - 1 - k] && ws[j] == vals[|vals| - 2 - k];
      match ApplyOp(ops[|ops| - 1 - k], vals[|vals| - 2 - k], acc)
      case Failure(_) =>
      case Success(b) =>
        CombiningFold(vals, ops, k + 1, b, ws[..j], os[..j]);
    }
  }

  /** The loop over values computes the right fold of the last
      `|ops| + 1` literals. */
  lemma CombiningAll(vals: seq<real>, ops: seq<BinOp>)
    requires |ops| < |vals|
    ensures Combining(vals, ops, 0, vals[|vals| - 1]) == Fold(vals[|vals| - 1 - |ops|..], ops)
  {
    var a := |vals| - 1 - |ops|;
    SplitLast(vals, a);
    UnusedAtStart(vals, ops);
    CombiningFold(vals, ops, 0, vals[|vals| - 1], vals[a..|vals| - 1], ops);
  }

  lemma SplitLast(vals: seq<real>, a: nat)
    requires a < |vals|
    ensures vals[a..|vals| - 1] + [vals[|vals| - 1]] == vals[a..]
  {
  }

  lemma UnusedAtStart(vals: seq<real>, ops: seq<BinOp>)
    requires |ops| < |vals|
    ensures Unused(vals, ops, 0, vals[|vals| - 1 - |ops|..|vals| - 1], ops)
  {
  }

  /** The value computation `f`, reported with the float flag `flag`. */
  function Expected(f: Result<real>, flag: bool): (r: Result<Number>) {
    var w :- f;
    Success(Number(w, flag))
  }

  /** Running combining lines `k`, ... while the leaf registers below
      `n - 1 - k` hold `vals` performs the remaining steps of the loop,
      with the newest register as its accumulator, and leaves the result
      in the register the last line copies; the float flag is untouched. */
  lemma {:induction false} ApplyPhase(code: seq<Instr>, leaves: seq<string>, ops: seq<BinOp>,
                                      vals: seq<real>, k: nat, pc: nat, m: Machine)
    requires |leaves| == |vals| && |ops| < |vals| && k <= |ops| && pc == |vals| + k
    requires CombinesNext(code, |vals|, ops) && |m.regs| == |code|
    requires code[|code| - 1] == Copy(|code| - 1, RhsOf(|vals|, |ops|))
    requires forall i :: 0 <= i < |vals| - 1 - k ==> m.regs[i] == vals[i]
    ensures RunFrom(code, leaves, pc, m)
         == Expected(Combining(vals, ops, k, m.regs[RhsOf(|vals|, k)]), m.anyFloat)
    decreases |ops| - k
  {
    var n, mm := |vals|, |ops|;
    if k < mm {
      match ApplyOp(ops[mm - 1 - k], m.regs[n - 2 - k], m.regs[RhsOf(n, k)])
      case Failure(_) =>
        ApplyFails(code, leaves, ops, vals, k, pc, m);
      case Success(b) =>
        ApplyAdvances(code, leaves, ops, vals, k, pc, m, b);
        ApplyPhase(code, leaves, ops, vals, k + 1, pc + 1, m.(regs := m.regs[pc := b]));
    } else {
      ApplyDone(code, leaves, ops, vals, pc, m);
    }
  }

  /** Past the combining lines only the copy is left: it reports the
      newest register. */
  lemma ApplyDone(code: seq<Instr>, leaves: seq<string>, ops: seq<BinOp>, vals: seq<real>, pc: nat, m: Machine)
    requires |ops| < |vals| && pc == |vals| + |ops|
    requires CombinesNext(code, |vals|, ops) && |m.regs| == |code|
    requires code[|code| - 1] == Copy(|code| - 1, RhsOf(|vals|, |ops|))
    ensures RunFrom(code, leaves, pc, m)
         == Expected(Combining(vals, ops, |ops|, m.regs[RhsOf(|vals|, |ops|)]), m.anyFloat)
  {
  }

  /** A failing combining line ends the run with its error. */
  lemma ApplyFails(code: seq<Instr>, leaves: seq<string>, ops: seq<BinOp>,
                   vals: seq<real>, k: nat, pc: nat, m: Machine)
    requires |leaves| == |vals| && |ops| < |vals| && k < |ops| && pc == |vals| + k
    requires CombinesNext(code, |vals|, ops) && |m.regs| == |code|
    requires forall i :: 0 <= i < |vals| - 1 - k ==> m.regs[i] == vals[i]
    requires ApplyOp(ops[|ops| - 1 - k], m.regs[|vals| - 2 - k], m.regs[RhsOf(|vals|, k)]).Failure?
    ensures RunFrom(code, leaves, pc, m)
         == Expected(Combining(vals, ops, k, m.regs[RhsOf(|vals|, k)]), m.anyFloat)
  {
    var n := |vals|;
    assert m.regs[n - 2 - k] == vals[n - 2 - k];
    CombineStep(code, leaves, ops, n, k, pc, m);
    CombiningStep(vals, ops, k, m.regs[RhsOf(n, k)]);
  }

  /** A combining line that goes through writes its register and hands
      the run to the next line, as one step of the loop over values. */
  lemma ApplyAdvances(code: seq<Instr>, leaves: seq<string>, ops: seq<BinOp>,
                      vals: seq<real>, k: nat, pc: nat, m: Machine, b: real)
    requires |leaves| == |vals| && |ops| < |vals| && k < |ops| && pc == |vals| + k
    requires CombinesNext(code, |vals|, ops) && |m.regs| == |code|
    requires forall i :: 0 <= i < |vals| - 1 - k ==> m.regs[i] == vals[i]
    requires ApplyOp(ops[|ops| - 1 - k], m.regs[|vals| - 2 - k], m.regs[RhsOf(|vals|, k)]) == Success(b)
    ensures var m1 := m.(regs := m.regs[pc := b]);
      && RunFrom(code, leaves, pc, m) == RunFrom(code, leaves, pc + 1, m1)
      && Combining(vals, ops, k, m.regs[RhsOf(|vals|, k)]) == Combining(vals, ops, k + 1, m1.regs[RhsOf(|vals|, k + 1)])
      && (forall i :: 0 <= i < |vals| - 1 - (k + 1) ==> m1.regs[i] == vals[i])
      && |m1.regs| == |code| && m1.anyFloat == m.anyFloat
  {
    var n := |vals|;
    var m1 := m.(regs := m.regs[pc := b]);
    assert m.regs[n - 2 - k] == vals[n - 2 - k];
    RunStep(code, leaves, ops, n, k, pc, m, b);
    CombiningStepSuccess(vals, ops, k, m.regs[RhsOf(n, k)], b);
    assert m1.regs[RhsOf(n, k + 1)] == b;
  }

  /** One combining line of the generated code. */
  lemma CombineStep(code: seq<Instr>, leaves: seq<string>, ops: seq<BinOp>, n: nat, k: nat, pc: nat, m: Machine)
    requires n == |leaves| && |ops| < n && k < |ops| && pc == n + k
    requires CombinesNext(code, n, ops) && |m.regs| == |code|
    ensures ExecFrom(code, leaves, pc, m)
         == (var b :- ApplyOp(ops[|ops| - 1 - k], m.regs[n - 2 - k], m.regs[RhsOf(n, k)]);
             ExecFrom(code, leaves, pc + 1, m.(regs := m.regs[pc := b])))
  {
    var line := code[pc];
    assert line == CombineLine(n, ops, k);
    ExecStep(code, leaves, pc, m);
    ExecApply(line, leaves, m);
  }

  lemma CombineStepSuccess(code: seq<Instr>, leaves: seq<string>, ops: seq<BinOp>, n: nat, k: nat, pc: nat,
                           m: Machine, b: real)
    requires n == |leaves| && |ops| < n && k < |ops| && pc == n + k
    requires CombinesNext(code, n, ops) && |m.regs| == |code|
    requires ApplyOp(ops[|ops| - 1 - k], m.regs[n - 2 - k], m.regs[RhsOf(n, k)]) == Success(b)
    ensures ExecFrom(code, leaves, pc, m) == ExecFrom(code, leaves, pc + 1, m.(regs := m.regs[pc := b]))
  {
    CombineStep(code, leaves, ops, n, k, pc, m);
  }

  lemma RunStep(code: seq<Instr>, leaves: seq<string>, ops: seq<BinOp>, n: nat, k: nat, pc: nat,
                m: Machine, b: real)
    requires n == |leaves| && |ops| < n && k < |ops| && pc == n + k
    requires CombinesNext(code, n, ops) && |m.regs| == |code|
    requires ApplyOp(ops[|ops| - 1 - k], m.regs[n - 2 - k], m.regs[RhsOf(n, k)]) == Success(b)
    ensures RunFrom(code, leaves, pc, m) == RunFrom(code, leaves, pc + 1, m.(regs := m.regs[pc := b]))
  {
    CombineStepSuccess(code, leaves, ops, n, k, pc, m, b);
  }

  /** One turn of the loop. */
  lemma ExecStep(code: seq<Instr>, leaves: seq<string>, pc: nat, m: Machine)
    requires pc + 1 < |code|
    ensures ExecFrom(code, leaves, pc, m)
         == (var m' :- ExecLine(code[pc], leaves, m); ExecFrom(code, leaves, pc + 1, m'))
  {
  }

  /** A line that writes a register past the leaves applies its operator. */
  lemma ExecApply(line: Instr, leaves: seq<string>, m: Machine)
    requires line.Apply? && line.dst >= |leaves|
    requires line.dst < |m.regs| && line.lhs < |m.regs| && line.rhs < |m.regs|
    ensures ExecLine(line, leaves, m)
         == (var v :- ApplyOp(line.op, m.regs[line.lhs], m.regs[line.rhs]); Success(m.(regs := m.regs[line.dst := v])))
  {
  }

  /** What an expression with the literals `leaves` and the operator log
      `ops` evaluates to: every literal read in order, then the log folded
      from the right over the last `|ops| + 1` of them; a float when any
      literal is one. */
  function Reference(leaves: seq<string>, ops: seq<BinOp>): (r: Result<Number>)
    requires |ops| < |leaves|
    ensures r.Success? ==> (r.value.isFloat <==> exists i :: 0 <= i < |leaves| && DotCount(leaves[i]) == 1)
    ensures r.Failure? ==> r.error == MalformedNumber || r.error == Undefined || r.error == DivisionByZero
    ensures r == Failure(MalformedNumber) ==> exists i :: 0 <= i < |leaves| && DotCount(leaves[i]) >= 2
  {
    ReadAllErrors(leaves);
    var p :- ReadAll(leaves);
    Expected(Fold(p.0[|p.0| - 1 - |ops|..], ops), p.1)
  }

  /** Reading the literals fails only with error 3, which names a literal
      with two or more `.`, or with an unreadable text; when it goes
      through, the float flag is up exactly when some literal has one `.`. */
  lemma {:induction false} ReadAllErrors(leaves: seq<string>)
    ensures var r := ReadAll(leaves);
      r.Failure? ==> r.error == MalformedNumber || r.error == Undefined
    ensures var r := ReadAll(leaves);
      r == Failure(MalformedNumber) ==> exists i :: 0 <= i < |leaves| && DotCount(leaves[i]) >= 2
    ensures var r := ReadAll(leaves);
      r.Success? ==> (r.value.1 <==> exists i :: 0 <= i < |leaves| && DotCount(leaves[i]) == 1)
    decreases |leaves|
  {
    if leaves != [] {
      ReadAllErrors(leaves[1..]);
      assert forall i :: 1 <= i < |leaves| ==> leaves[1..][i - 1] == leaves[i];
    }
  }

  /** The layout of generated code the two phases rely on, and every
      register number in it has one digit when there are at most ten
      registers in the loop. */
  lemma GeneratedLayout(leaves: seq<string>, ops: seq<BinOp>)
    requires 1 <= |leaves| && |ops| < |leaves| && |leaves| + |ops| <= 10
    ensures var code := Generate(leaves, ops);
      && DigitRegisters(code) && LoadsFirst(code, leaves) && CombinesNext(code, |leaves|, ops)
      && code[|code| - 1] == Copy(|code| - 1, RhsOf(|leaves|, |ops|))
  {
    var code := Generate(leaves, ops);
    var n := |leaves|;
    forall i | 0 <= i < |code| - 1 ensures DigitLine(code[i]) {
      if i >= n {
        assert code[n + (i - n)] == CombineLine(n, ops, i - n);
      }
    }
  }

  /** From the first combining line on, with the literals in their
      registers, the generated code ends in the right fold of the log. */
  lemma CombinePhase(code: seq<Instr>, leaves: seq<string>, ops: seq<BinOp>, vals: seq<real>, m: Machine)
    requires |leaves| == |vals| && |ops| < |leaves|
    requires CombinesNext(code, |leaves|, ops) && |m.regs| == |code|
    requires code[|code| - 1] == Copy(|code| - 1, RhsOf(|leaves|, |ops|))
    requires forall i :: 0 <= i < |leaves| ==> m.regs[i] == vals[i]
    ensures RunFrom(code, leaves, |leaves|, m) == Expected(Fold(vals[|vals| - 1 - |ops|..], ops), m.anyFloat)
  {
    assert m.regs[RhsOf(|vals|, 0)] == vals[|vals| - 1];
    ApplyPhase(code, leaves, ops, vals, 0, |leaves|, m);
    CombiningAll(vals, ops);
  }

  /** The loads read every literal into its register. */
  lemma LoadAll(code: seq<Instr>, leaves: seq<string>, m: Machine, p: (seq<real>, bool))
    requires LoadsFirst(code, leaves) && |m.regs| == |code| && !m.anyFloat
    requires ReadAll(leaves) == Success(p)
    ensures RunFrom(code, leaves, 0, m) == RunFrom(code, leaves, |leaves|, Machine(Store(m.regs, 0, p.0), p.1))
  {
    LoadPhase(code, leaves, 0, m);
    assert leaves[0..] == leaves;
    assert (m.anyFloat || p.1) == p.1;
  }

  /** A literal that cannot be read stops the loads with its error. */
  lemma LoadAllFails(code: seq<Instr>, leaves: seq<string>, m: Machine)
    requires LoadsFirst(code, leaves) && |m.regs| == |code|
    requires ReadAll(leaves).Failure?
    ensures RunFrom(code, leaves, 0, m) == Failure(ReadAll(leaves).error)
  {
    LoadPhase(code, leaves, 0, m);
    assert leaves[0..] == leaves;
  }

  /** The generated code runs to the reference value: the fold of the
      operator log over the last `|ops| + 1` literals, announced as a float
      when any literal is one; errors 3 and 4 surface exactly where the
      reference reports them. */
  lemma EvaluateGenerated(leaves: seq<string>, ops: seq<BinOp>)
    requires 1 <= |leaves| && |ops| < |leaves| && |leaves| + |ops| <= 10
    ensures DigitRegisters(Generate(leaves, ops))
    ensures Evaluate(Generate(leaves, ops), leaves) == Reference(leaves, ops)
  {
    GeneratedLayout(leaves, ops);
    EvaluateLaidOut(Generate(leaves, ops), leaves, ops);
  }

  /** Any code laid out as the generator lays it out runs to the
      reference value. */
  lemma EvaluateLaidOut(code: seq<Instr>, leaves: seq<string>, ops: seq<BinOp>)
    requires |ops| < |leaves| && DigitRegisters(code) && LoadsFirst(code, leaves)
    requires CombinesNext(code, |leaves|, ops)
    requires code[|code| - 1] == Copy(|code| - 1, RhsOf(|leaves|, |ops|))
    ensures Evaluate(code, leaves) == Reference(leaves, ops)
  {
    var m0 := Machine(Zeros(|code|), false);
    assert Evaluate(code, leaves) == RunFrom(code, leaves, 0, m0);
    LoadedReference(code, leaves, ops, m0);
  }

  /** From a register file of the right size and a clear float flag, the
      whole run reports the reference value. */
  lemma LoadedReference(code: seq<Instr>, leaves: seq<string>, ops: seq<BinOp>, m: Machine)
    requires |ops| < |leaves| && LoadsFirst(code, leaves) && CombinesNext(code, |leaves|, ops)
    requires code[|code| - 1] == Copy(|code| - 1, RhsOf(|leaves|, |ops|))
    requires |m.regs| == |code| && !m.anyFloat
    ensures RunFrom(code, leaves, 0, m) == Reference(leaves, ops)
  {
    match ReadAll(leaves)
    case Failure(e) =>
      LoadAllFails(code, leaves, m);
    case Success(p) =>
      LoadedSuccess(code, leaves, ops, m, p);
  }

  lemma LoadedSuccess(code: seq<Instr>, leaves: seq<string>, ops: seq<BinOp>, m: Machine, p: (seq<real>, bool))
    requires |ops| < |leaves| && LoadsFirst(code, leaves) && CombinesNext(code, |leaves|, ops)
    requires code[|code| - 1] == Copy(|code| - 1, RhsOf(|leaves|, |ops|))
    requires |m.regs| == |code| && !m.anyFloat
    requires ReadAll(leaves) == Success(p)
    ensures RunFrom(code, leaves, 0, m) == Reference(leaves, ops)
  {
    LoadAll(code, leaves, m, p);
    LoadedRun(code, leaves, ops, p.0, m.regs, p.1);
    ReferenceRead(leaves, ops, p);
  }

  lemma ReferenceRead(leaves: seq<string>, ops: seq<BinOp>, p: (seq<real>, bool))
    requires |ops| < |leaves| && ReadAll(leaves) == Success(p)
    ensures Reference(leaves, ops) == Expected(Fold(p.0[|p.0| - 1 - |ops|..], ops), p.1)
  {
  }

  /** With every literal read into its register, the combining lines and
      the last line report the fold. */
  lemma LoadedRun(code: seq<Instr>, leaves: seq<string>, ops: seq<BinOp>, vals: seq<real>, regs: seq<real>, flag: bool)
    requires |leaves| == |vals| && |ops| < |leaves| && |regs| == |code|
    requires CombinesNext(code, |leaves|, ops)
    requires code[|code| - 1] == Copy(|code| - 1, RhsOf(|leaves|, |ops|))
    ensures RunFrom(code, leaves, |leaves|, Machine(Store(regs, 0, vals), flag))
         == Expected(Fold(vals[|vals| - 1 - |ops|..], ops), flag)
  {
    var m1 := Machine(Store(regs, 0, vals), flag);
    forall i | 0 <= i < |vals| ensures m1.regs[i] == vals[i] {
      assert m1.regs[0 + i] == vals[i];
    }
    CombinePhase(code, leaves, ops, vals, m1);
  }
}
