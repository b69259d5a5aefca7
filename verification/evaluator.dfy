/** `resolverOperacion` (Compilador.cpp:463-567): runs the generated code
    over the register file `t`, one line at a time from the front, and
    then reads the result off the last line.

    The source parses each line back from its text, reading a register
    number as the single character after `[`; the model works on `Instr`
    values and asks, as a precondition, that every register number it
    would read has one digit. */
module Evaluator {
  import opened Results
  import opened Tokens
  import opened CodeGen
  import opened Numbers

  /** The register file (`vector<float> t`) and whether any literal was
      converted as a float. The source counts those literals
      (`flotantes`) but only ever tests the count against 0. */
  datatype Machine = Machine(regs: seq<real>, anyFloat: bool)

  /** The register numbers of a line the loop executes fit one digit. */
  predicate DigitLine(line: Instr) {
    match line
    case Load(d, _) => d < 10
    case Apply(d, a, _, b) => d < 10 && a < 10 && b < 10
    case Copy(d, s) => d < 10 && s < 10
  }

  /** The register number read from the last line fits one digit. */
  predicate DigitLast(line: Instr) {
    match line
    case Load(_, _) => true
    case Apply(_, a, _, _) => a < 10
    case Copy(_, s) => s < 10
  }

  predicate DigitRegisters(code: seq<Instr>) {
    && (forall i :: 0 <= i < |code| - 1 ==> DigitLine(code[i]))
    && (|code| > 0 ==> DigitLast(code[|code| - 1]))
  }

  /** One pass of the `while` body (Compilador.cpp:470-548). A line whose
      register `paso` names a leaf is a conversion: the leaf's `.` count is
      checked first, then the text after `= ` is converted. Any other line
      must be an operation on two registers. Every other shape of line
      makes the source read outside its text or its registers. A
      conversion goes through only for a literal with at most one `.` and
      raises the float flag exactly when it has one; an operation leaves
      the flag alone. Error 3 comes only from a leaf with two or more `.`,
      error 4 only from a division. */
  function ExecLine(line: Instr, leaves: seq<string>, m: Machine): (r: Result<Machine>)
    ensures r.Success? ==> |r.value.regs| == |m.regs|
    ensures r.Success? && line.dst < |leaves| ==>
      && line.Load? && DotCount(leaves[line.dst]) <= 1
      && r.value.anyFloat == (m.anyFloat || DotCount(leaves[line.dst]) == 1)
    ensures r.Success? && line.dst >= |leaves| ==> line.Apply? && r.value.anyFloat == m.anyFloat
    ensures r == Failure(MalformedNumber) ==> line.dst < |leaves| && DotCount(leaves[line.dst]) >= 2
    ensures r == Failure(DivisionByZero) ==> line.Apply? && line.op == Div
  {
    var paso := line.dst;
    if paso < |leaves| then
      var dots := DotCount(leaves[paso]);
      if dots >= 2 then Failure(MalformedNumber)
      else if !line.Load? || paso >= |m.regs| then Failure(Undefined)
      else
        match Stof(line.text)
        case None => Failure(Undefined)
        case Some(v) => Success(Machine(m.regs[paso := v], m.anyFloat || dots == 1))
    else if !line.Apply? || paso >= |m.regs| || line.lhs >= |m.regs| || line.rhs >= |m.regs| then
      Failure(Undefined)
    else
      var v :- ApplyOp(line.op, m.regs[line.lhs], m.regs[line.rhs]);
      Success(m.(regs := m.regs[paso := v]))
  }

  /** A line of `code` whose register names a leaf with exactly one `.`. */
  predicate FloatLine(code: seq<Instr>, leaves: seq<string>, i: nat)
    requires i < |code|
  {
    code[i].dst < |leaves| && DotCount(leaves[code[i].dst]) == 1
  }

  /** The loop `while (operaciones.size() > 1)` from line `pc` on: every
      line but the last. */
  function ExecFrom(code: seq<Instr>, leaves: seq<string>, pc: nat, m: Machine): (r: Result<Machine>)
    ensures r.Success? ==> |r.value.regs| == |m.regs|
    decreases |code| - pc
  {
    if pc + 1 >= |code| then Success(m)
    else
      var m' :- ExecLine(code[pc], leaves, m);
      ExecFrom(code, leaves, pc + 1, m')
  }

  /** A run of the loop that gets through has converted a float literal
      exactly when some executed line names a leaf with one `.`; error 3
      comes from a leaf with two or more, error 4 from a division. */
  lemma {:induction false} ExecFromFacts(code: seq<Instr>, leaves: seq<string>, pc: nat, m: Machine)
    ensures var r := ExecFrom(code, leaves, pc, m);
      r.Success? ==>
        (r.value.anyFloat <==> m.anyFloat || exists i :: pc <= i < |code| - 1 && FloatLine(code, leaves, i))
    ensures ExecFrom(code, leaves, pc, m) == Failure(MalformedNumber) ==>
      exists i :: pc <= i < |code| - 1 && code[i].dst < |leaves| && DotCount(leaves[code[i].dst]) >= 2
    ensures ExecFrom(code, leaves, pc, m) == Failure(DivisionByZero) ==>
      exists i :: pc <= i < |code| - 1 && code[i].Apply? && code[i].op == Div
    decreases |code| - pc
  {
    if pc + 1 < |code| {
      match ExecLine(code[pc], leaves, m)
      case Failure(_) =>
      case Success(m') =>
        assert m'.anyFloat <==> m.anyFloat || FloatLine(code, leaves, pc);
        ExecFromFacts(code, leaves, pc + 1, m');
        var r := ExecFrom(code, leaves, pc + 1, m');
        assert ExecFrom(code, leaves, pc, m) == r;
        assert r.Success? ==> forall i :: pc <= i < |code| - 1 && FloatLine(code, leaves, i) ==>
          i == pc || (pc + 1 <= i < |code| - 1 && FloatLine(code, leaves, i));
    }
  }

  /** The last line (Compilador.cpp:551-565): the register after `= t[` is
      the result, announced as a float when any literal was one. For the
      copy the generator emits that is its source; for an operation it is
      the left operand. */
  function Final(line: Instr, m: Machine): (r: Result<Number>)
    ensures r.Success? ==> r.value.isFloat == m.anyFloat
    ensures r.Success? && line.Copy? ==> line.src < |m.regs| && r.value.value == m.regs[line.src]
  {
    match line
    case Load(_, _) => Failure(Undefined)
    case Apply(_, a, _, _) => if a < |m.regs| then Success(Number(m.regs[a], m.anyFloat)) else Failure(Undefined)
    case Copy(_, s) => if s < |m.regs| then Success(Number(m.regs[s], m.anyFloat)) else Failure(Undefined)
  }

  /** A register file of `n` registers holding 0, as `vector<float> t(n)`
      starts. */
  function Zeros(n: nat): (regs: seq<real>)
    ensures |regs| == n && forall i :: 0 <= i < n ==> regs[i] == 0.0
  {
    seq(n, _ => 0.0)
  }

  /** `resolverOperacion`: a register file with one register per line,
      all 0, then the loop, then the last line. The result is announced as
      a float exactly when some converted literal has one `.`; error 3
      comes from a literal with two or more, error 4 from a division. */
  function Evaluate(code: seq<Instr>, leaves: seq<string>): (r: Result<Number>)
    requires |code| >= 1 && DigitRegisters(code)
    ensures r.Success? ==>
      (r.value.isFloat <==> exists i :: 0 <= i < |code| - 1 && FloatLine(code, leaves, i))
    ensures r == Failure(MalformedNumber) ==>
      exists i :: 0 <= i < |code| - 1 && code[i].dst < |leaves| && DotCount(leaves[code[i].dst]) >= 2
    ensures r == Failure(DivisionByZero) ==>
      exists i :: 0 <= i < |code| - 1 && code[i].Apply? && code[i].op == Div
  {
    var m0 := Machine(Zeros(|code|), false);
    ExecFromFacts(code, leaves, 0, m0);
    RunFrom(code, leaves, 0, m0)
  }

  /** The loop from line `pc` on, then the last line. */
  function RunFrom(code: seq<Instr>, leaves: seq<string>, pc: nat, m: Machine): (r: Result<Number>)
    requires |code| >= 1
  {
    var m' :- ExecFrom(code, leaves, pc, m);
    Final(code[|code| - 1], m')
  }
}
