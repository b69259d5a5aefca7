/** `generarLenguaje` (Compilador.cpp:422-460): three-address code over
    the registers `t[0]`, `t[1]`, ...

    The source builds each line as text (`"t[k] = …"`) and keeps a stack
    `num` of register names; here a line is an `Instr` and the stack holds
    register numbers. */
module CodeGen {
  import opened Tokens

  /** One line of `interno`. */
  datatype Instr =
    | Load(dst: nat, text: string)                     // t[i] = <literal text>
    | Apply(dst: nat, lhs: nat, op: BinOp, rhs: nat)   // t[k] = t[a] op t[b]
    | Copy(dst: nat, src: nat)                         // t[k] = t[j]

  /** The registers `lo`, ..., `hi - 1`, in order. */
  function Range(lo: nat, hi: nat): (r: seq<nat>)
    requires lo <= hi
    ensures |r| == hi - lo
    ensures forall i :: 0 <= i < |r| ==> r[i] == lo + i
    decreases hi - lo
  {
    if lo == hi then [] else [lo] + Range(lo + 1, hi)
  }

  /** The first loop (Compilador.cpp:429-434): one load per leaf text. */
  function Loads(leaves: seq<string>): (code: seq<Instr>)
    ensures |code| == |leaves|
    decreases |leaves|
  {
    if leaves == [] then []
    else Loads(leaves[..|leaves| - 1]) + [Load(|leaves| - 1, leaves[|leaves| - 1])]
  }

  /** The second loop (Compilador.cpp:437-455): pop the right and then the
      left operand register, take the operator from the back of the log,
      emit the line for register `next` and push `next`. */
  function Combine(stack: seq<nat>, ops: seq<BinOp>, next: nat): (code: seq<Instr>)
    requires |stack| >= |ops| + 1
    ensures |code| == |ops|
    decreases |ops|
  {
    if ops == [] then []
    else
      var rhs := stack[|stack| - 1];
      var lhs := stack[|stack| - 2];
      [Apply(next, lhs, ops[|ops| - 1], rhs)] + Combine(stack[..|stack| - 2] + [next], ops[..|ops| - 1], next + 1)
  }

  /** The right operand of the `k`-th combining line for `n` leaves: the
      last leaf at first, then always the register just written. */
  function RhsOf(n: nat, k: nat): nat
    requires n >= 1
  {
    if k == 0 then n - 1 else n + k - 1
  }

  /** Line `k` of the combining part, for `n` leaves and the log `ops`:
      it writes `t[n+k]` from `t[n-2-k]` and the register on top of the
      stack, with the `k`-th operator from the back of the log. */
  function CombineLine(n: nat, ops: seq<BinOp>, k: nat): Instr
    requires k < |ops| < n
  {
    Apply(n + k, n - 2 - k, ops[|ops| - 1 - k], RhsOf(n, k))
  }

  /** `code` holds the combining lines `k`, `k + 1`, ... in order. */
  predicate LinesFrom(code: seq<Instr>, n: nat, ops: seq<BinOp>, k: nat)
    requires |ops| < n
  {
    && k + |code| == |ops|
    && forall j :: 0 <= j < |code| ==> code[j] == CombineLine(n, ops, k + j)
  }

  /** `generarLenguaje` for `n >= 1` leaves and fewer operators than
      leaves. With at least one operator and no fewer operators than
      leaves the source pops an empty stack; with no leaf and no operator
      it emits the single line `t[0] = t[-1]`. The code is: the loads
      `t[i] = leaf i`, then line `k` computes `t[n+k]` from `t[n-2-k]` and
      the newest register with the `k`-th operator from the back of the
      log, then the last register is copied once more. */
  function Generate(leaves: seq<string>, ops: seq<BinOp>): (code: seq<Instr>)
    requires 1 <= |leaves| && |ops| < |leaves|
    ensures var n, m := |leaves|, |ops|;
      && |code| == n + m + 1
      && (forall i :: 0 <= i < n ==> code[i] == Load(i, leaves[i]))
      && (forall k :: 0 <= k < m ==> code[n + k] == CombineLine(n, ops, k))
      && code[n + m] == Copy(n + m, n + m - 1)
  {
    var n, m := |leaves|, |ops|;
    var loads := Loads(leaves);
    var body := Combine(Range(0, n), ops, n);
    LoadsClosed(leaves);
    CombineAll(n, ops);
    var code := loads + body + [Copy(n + m, n + m - 1)];
    LayoutLoads(leaves, loads, body + [Copy(n + m, n + m - 1)], code);
    LayoutLines(n, ops, loads, body, code);
    code
  }

  /** The three parts of `Generate`, put together: the loads first. */
  lemma LayoutLoads(leaves: seq<string>, loads: seq<Instr>, rest: seq<Instr>, code: seq<Instr>)
    requires |loads| == |leaves|
    requires forall i :: 0 <= i < |leaves| ==> loads[i] == Load(i, leaves[i])
    requires code == loads + rest
    ensures forall i :: 0 <= i < |leaves| ==> code[i] == Load(i, leaves[i])
  {
    assert forall i :: 0 <= i < |leaves| ==> code[i] == loads[i];
  }

  /** Then the combining lines, then the copy. */
  lemma LayoutLines(n: nat, ops: seq<BinOp>, loads: seq<Instr>, body: seq<Instr>, code: seq<Instr>)
    requires |ops| < n && |loads| == n
    requires LinesFrom(body, n, ops, 0)
    requires code == loads + body + [Copy(n + |ops|, n + |ops| - 1)]
    ensures |code| == n + |ops| + 1
    ensures forall k :: 0 <= k < |ops| ==> code[n + k] == CombineLine(n, ops, k)
    ensures code[n + |ops|] == Copy(n + |ops|, n + |ops| - 1)
  {
    forall k | 0 <= k < |ops| ensures code[n + k] == CombineLine(n, ops, k) {
      assert code[n + k] == body[k] == CombineLine(n, ops, 0 + k);
    }
  }

  /** The combining part of `Generate`, in closed form. */
  lemma CombineAll(n: nat, ops: seq<BinOp>)
    requires 1 <= n && |ops| < n
    ensures LinesFrom(Combine(Range(0, n), ops, n), n, ops, 0)
  {
    assert ops[..|ops| - 0] == ops;
    RangeSnoc(n);
    CombineClosed(n, ops, 0, Range(0, n), ops, n);
  }

  lemma RangeSnoc(n: nat)
    requires 1 <= n
    ensures Range(0, n) == Range(0, n - 1 - 0) + [RhsOf(n, 0)]
  {
    assert Range(0, n) == Range(0, n - 1) + [n - 1];
  }

  /** Every line writes the register that bears its own position, and
      every operand was written earlier. */
  lemma GeneratedRegisters(leaves: seq<string>, ops: seq<BinOp>)
    requires 1 <= |leaves| && |ops| < |leaves|
    ensures var code := Generate(leaves, ops);
      forall i :: 0 <= i < |code| ==> code[i].dst == i
    ensures var code := Generate(leaves, ops);
      forall i :: 0 <= i < |code| && code[i].Apply? ==> code[i].lhs < i && code[i].rhs < i
  {
    var code := Generate(leaves, ops);
    var n := |leaves|;
    forall i | n <= i < |code| - 1
      ensures code[i] == CombineLine(n, ops, i - n)
    {
      assert code[n + (i - n)] == CombineLine(n, ops, i - n);
    }
  }

  lemma {:induction false} LoadsClosed(leaves: seq<string>)
    ensures forall i :: 0 <= i < |leaves| ==> Loads(leaves)[i] == Load(i, leaves[i])
    decreases |leaves|
  {
    if leaves != [] {
      var init := leaves[..|leaves| - 1];
      LoadsClosed(init);
      forall i | 0 <= i < |leaves|
        ensures Loads(leaves)[i] == Load(i, leaves[i])
      {
        if i < |init| {
          assert Loads(leaves)[i] == Loads(init)[i];
        }
      }
    }
  }

  /** After `k` combining lines the stack holds the leaf registers below
      `n - 1 - k` and, on top, the register written last; from there the
      remaining lines follow the closed form. */
  lemma {:induction false} CombineClosed(n: nat, ops: seq<BinOp>, k: nat, stack: seq<nat>, rest: seq<BinOp>, next: nat)
    requires |ops| < n && k <= |ops|
    requires stack == Range(0, n - 1 - k) + [RhsOf(n, k)]
    requires rest == ops[..|ops| - k] && next == n + k
    ensures LinesFrom(Combine(stack, rest, next), n, ops, k)
    decreases |ops| - k
  {
    var m := |ops|;
    if k < m {
      var stack' := stack[..|stack| - 2] + [n + k];
      assert stack[..|stack| - 2] == Range(0, n - 2 - k);
      assert stack' == Range(0, n - 1 - (k + 1)) + [RhsOf(n, k + 1)];
      var rest' := rest[..|rest| - 1];
      assert rest' == ops[..m - (k + 1)];
      CombineClosed(n, ops, k + 1, stack', rest', next + 1);
      var tail := Combine(stack', rest', next + 1);
      var code := Combine(stack, rest, next);
      assert code == [CombineLine(n, ops, k)] + tail;
      forall j | 0 <= j < |code|
        ensures code[j] == CombineLine(n, ops, k + j)
      {
        if j > 0 {
          assert code[j] == tail[j - 1];
        }
      }
    }
  }
}
