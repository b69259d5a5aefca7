/** The whole run as `main` drives it (Compilador.cpp:612-629): `lexer`,
    `encontrarAmbiguedad`, `parser`, then `generarLenguaje`, which hands
    its code to `resolverOperacion`. Every call of `errores` ends the
    process, so the first error met is the outcome. */
module Compiler {
  import opened Results
  import opened Tokens
  import opened Lexer
  import opened Gate
  import opened Parser
  import opened CodeGen
  import opened Numbers
  import opened Evaluator
  import opened Semantics

  /** What the parser leaves for `generarLenguaje`: the texts of the
      leaves in `ultimos`, and the operator log `operaciones`. */
  datatype Parsed = Parsed(texts: seq<string>, ops: seq<BinOp>)

  /** Lexing, the gate and the parse, up to the point where the generator
      starts popping its stack. A parse that stops with its cursor still
      live has logged as many operators as leaves: with at least one leaf
      the generator then pops an empty vector, and with none it emits
      `t[0] = t[-1]`, whose register the evaluator reads at a negative
      index. A parse that ends with a null cursor has exactly one operator
      fewer than leaves, and the leaves are the first literals of the input,
      in order. */
  function Front(input: string, fuel: nat): (r: Result<Parsed>)
    ensures (r.Failure? && r.error.InvalidCharacter?) <==> Lex(input).Failure?
    ensures r == Failure(Ambiguous) <==> Lex(input).Success? && Gate.Ambiguous(Lex(input).value.tokens)
    ensures r.Failure? ==> r.error.InvalidCharacter? || r.error == Ambiguous || r.error == OutOfFuel || r.error == Undefined
    ensures r.Success? ==> Lex(input).Success? && r.value.texts <= Lex(input).value.values
    ensures r.Success? ==> |r.value.ops| + 1 == |r.value.texts|
  {
    var lx :- Lex(input);
    GateSpec(lx.tokens);
    if Flags(lx.tokens, 0) then Failure(Ambiguous)
    else
      match Parse(lx.tokens, lx.values, fuel)
      case None => Failure(OutOfFuel)
      case Some(s) =>
        ParseLeaves(lx.tokens, lx.values, fuel);
        var texts := Texts(s.tree, s.leaves);
        if |texts| == 0 || |s.ops| >= |texts| then Failure(Undefined)
        else Success(Parsed(texts, s.ops))
  }

  /** `generarLenguaje` followed by `resolverOperacion`: the reference
      value of the leaves and the log. Code needing a register number of
      two digits is refused, since the evaluator reads one digit only. */
  function Backend(p: Parsed): (r: Result<Number>)
    requires 1 <= |p.texts| && |p.ops| < |p.texts|
    ensures |p.texts| + |p.ops| <= 10 ==> r == Reference(p.texts, p.ops)
    ensures |p.texts| + |p.ops| > 10 ==> r == Failure(TooManyRegisters)
    ensures r.Failure? ==> !r.error.InvalidCharacter? && r.error != Ambiguous && r.error != OutOfFuel
  {
    if |p.texts| + |p.ops| > 10 then Failure(TooManyRegisters)
    else
      EvaluateGenerated(p.texts, p.ops);
      Evaluate(Generate(p.texts, p.ops), p.texts)
  }

  /** The compiler from input line to announced result (Compilador.cpp:
      612-644). Error 1 comes exactly from a character outside the accepted
      set, error 2 exactly from the gate on an input that lexes; a run that
      gets through reports the reference value of what the parser left: the
      right fold of its operator log over all of its leaves, of which there
      is exactly one more than operators, announced as a float exactly when
      one of those leaves has a `.`. */
  function Compile(input: string, fuel: nat): (r: Result<Number>)
    ensures (r.Failure? && r.error.InvalidCharacter?) <==> exists i :: 0 <= i < |input| && !IsInputChar(input[i])
    ensures r == Failure(Ambiguous) <==> Lex(input).Success? && Gate.Ambiguous(Lex(input).value.tokens)
    ensures r.Success? ==>
      && Front(input, fuel).Success?
      && |Front(input, fuel).value.ops| + 1 == |Front(input, fuel).value.texts|
      && r == Reference(Front(input, fuel).value.texts, Front(input, fuel).value.ops)
  {
    var p :- Front(input, fuel);
    Backend(p)
  }

  /** The step budget decides only whether the parse is seen to end: any
      outcome reached within a budget is the outcome for every larger one. */
  lemma CompileFuel(input: string, fuel: nat, more: nat)
    requires fuel <= more && Compile(input, fuel) != Failure(OutOfFuel)
    ensures Compile(input, more) == Compile(input, fuel)
  {
    FrontFuel(input, fuel, more);
  }

  lemma FrontFuel(input: string, fuel: nat, more: nat)
    requires fuel <= more && Front(input, fuel) != Failure(OutOfFuel)
    ensures Front(input, more) == Front(input, fuel)
  {
    match Lex(input)
    case Failure(_) =>
    case Success(lx) =>
      if !Flags(lx.tokens, 0) {
        var s0 := Init(lx.tokens, lx.values);
        if Run(s0, fuel).Some? {
          RunMono(s0, fuel, more);
        }
      }
  }
}
