# A model of the `Compilador` expression compiler

`Compilador.cpp` reads one arithmetic expression over decimal literals with
`+ - * /` and parentheses. It then runs these stages:

1. **Lexer.** `lexer` checks the character set and cuts the input into
   tokens, setting the literal texts aside as `num`.
2. **Gate.** `encontrarAmbiguedad` rejects some operator patterns as
   "ambiguous".
3. **Parser.** `parser` grows a ternary parse tree one production at a
   time. Each time it binds a literal it walks back up the tree, and it
   logs binary operators on the way.
4. **Code generation.** `generarLenguaje` turns the bound literals and the
   operator log into three-address code over registers `t[0]`, `t[1]`, ...
5. **Evaluation.** `resolverOperacion` runs that code and announces the
   result as `to_int` or `to_float`.

Any of the four numbered errors of `errores` ends the run.

The Dafny project follows the same stages, one module each:

- `Results`: errors as values.
- `Tokens`: the token vocabulary.
- `Lexer`
- `Gate`
- `Tree`: the parse tree as an index arena.
- `Parser`
- `CodeGen`
- `Numbers`: literal conversion and arithmetic.
- `Evaluator`
- `Semantics`: what the generated code computes, stated independently of
  the code.
- `Compiler`: the `main` pipeline.
- `Walkthrough`: one input traced through every stage.

Global vectors become the fields of a parser `State`. Pointers become arena
indices. Each `errores(n)` call becomes a `Failure` with that error.
Situations where the program has no defined outcome become
`Failure(Undefined)`. These are an out-of-range read and an exception
thrown by `stof`.

The central result is `Semantics.EvaluateGenerated`. When there are at most
ten registers, running the generated code gives `Semantics.Reference`. That
is the right fold of the operator log over the literals,
`v0 op0 (v1 op1 (... vm))`. A parse that reaches the generator has bound
exactly one more literal than it has logged operators
(`Parser.ParseLeaves`), so the fold takes in every bound literal. The
result is announced as a float exactly when one of those literals has one
`.`. `Compiler.Compile` chains every stage and states the whole-pipeline
result in these terms.

`Walkthrough` works one input through the whole pipeline: the parser state
after each of the twelve turns on `(2+3)*4`, and the outcome, the integer 14.

## Model

| member | source | states |
|---|---|---|
| Lexer.Lex | Compilador.cpp:171-221 | error 1 exactly when some character is outside `0123456789.+*()-/` and space, carrying the first such character; otherwise one value per `num` token, each value a non-empty run of digits and dots, and putting the values back in place of their markers gives the input without its spaces |
| Lexer.LexScan | Compilador.cpp:184-220 | putting the values back in place of their markers gives exactly the lexemes of a one-character-at-a-time scanner, so each literal is a maximal run between delimiters: `1 2` gives two literals and `12` one |
| Lexer.FirstInvalid | Compilador.cpp:176-182 | the position found is the first character outside the accepted set; none is found exactly when every character is accepted |
| Lexer.FindDelimiter | Compilador.cpp:187 | the position found is the first of ` +*()-/` at or after `aux`, or there is none |
| Lexer.Segment | Compilador.cpp:184-211 | every piece is a one-character glyph or a non-empty run of non-delimiters, and the pieces glued together are the input from `aux` on without spaces |
| Lexer.SegmentScan | Compilador.cpp:184-211 | the segmentation loop cuts exactly where the reference scanner cuts: a delimiter ends the current run and, unless it is a space, is a piece of its own |
| Lexer.ScanSpaceSplits | Compilador.cpp:184-211 | a space between two digits separates two literals |
| Lexer.ScanRunKept | Compilador.cpp:184-211 | two adjacent digits stay one literal |
| Lexer.Classify | Compilador.cpp:214-220 | a lexeme becomes `num` exactly when it is all digits and dots, any other lexeme keeps its text as its token, and there is one value per `num` |
| Lexer.RenderClassify | Compilador.cpp:214-220 | classification loses nothing: putting values back in place of `num` markers gives the lexemes back, so values keep their source order |
| Lexer.LexGlyphs | Compilador.cpp:184-220 | the non-`num` tokens spell out exactly the operator and parenthesis characters of the input, in order |
| Gate.ScanClose | Compilador.cpp:232-237 | the inner scan finds something exactly when some `)` at or after `j` is directly followed by an operator of the given class, nesting ignored |
| Gate.FlagsFrom | Compilador.cpp:225-256 | the scan from `i` fires exactly when some operator from `i` on fires by rule A or rule B before any operator followed by `(` has ended the scan |
| Gate.GateSpec | Compilador.cpp:224-257 | error 2 is raised exactly when the declarative `Ambiguous` holds |
| Gate.RuleA | Compilador.cpp:226-230 | an operator with a same-class operator two places on raises error 2 if no earlier operator was followed by `(` |
| Gate.RuleB | Compilador.cpp:231-239 | at the first operator followed by `(`, if rule A does not fire, the verdict is the inner scan's, whatever operators come later |
| Gate.OnePlusPlusTwoPasses | Compilador.cpp:226-239 | `num + + num` passes: rule A at each `+` finds no `+` or `-` two places on, and no `(` starts rule B |
| Tree.Insert | Compilador.cpp:49-54 | an occupied slot leaves the tree unchanged; an empty slot gets a new childless node with the given label and parent, and no other node changes |
| Tree.Expand | Compilador.cpp:288-290 | the three inserts of a production keep the arena well formed and leave the node with all three children; on a bare node they append exactly three new nodes |
| Tree.ExpandInserts | Compilador.cpp:49-54 | `Expand` is exactly the composition of three `insertar` calls, left, middle, right |
| Tree.Height | Compilador.cpp:57-66 | the height is 0 exactly for a null node, and is bounded by the arena slots from the node on |
| Tree.HeightChildren | Compilador.cpp:57-66 | a node is strictly higher than each of its children |
| Tree.HeightLongest | Compilador.cpp:57-66 | the height of a node is the number of nodes on a longest downward path from it: no path from it is longer, and some path is that long |
| Tree.DescentBound | Compilador.cpp:57-66 | no downward path has more nodes than the height of its first node |
| Tree.Deepest | Compilador.cpp:57-66 | a downward path from the node with exactly as many nodes as its height |
| Parser.Init | Compilador.cpp:262-263 | the root `<E>` with the cursor on it, all token and value lists as given |
| Parser.ScanE | Compilador.cpp:271-285 | finds the first `+`, or `-` right after a `num`, before any `(`; none found means every such operator sits after a `(` |
| Parser.ScanT | Compilador.cpp:311-324 | finds the first `*` or `/` before any `(`; none found means every such operator sits after a `(` |
| Parser.ScanU | Compilador.cpp:350-363 | finds the first `num`, `-` or `(`; none found means there is none |
| Parser.FirstClose | Compilador.cpp:370-375 | finds the first `)` from position `j` on, whatever its nesting |
| Parser.EraseFirstClose | Compilador.cpp:370-375 | the stream loses exactly its first `)`, wherever it stands; with no `)` it is unchanged |
| Parser.StepEShape | Compilador.cpp:268-307 | with a first additive operator, that token alone is erased and `<E> op <T>` is built with the cursor on the left `<E>`; otherwise nothing is erased and `NULL <T> NULL` is built with the cursor on `<T>` |
| Parser.StepTShape | Compilador.cpp:308-346 | with a first `*` or `/`, that token alone is erased and `<T> op <T>` is built with the cursor on the left `<T>`; otherwise `NULL <U> NULL` with the cursor on `<U>` |
| Parser.StepUShape | Compilador.cpp:347-414 | the `<U>` step `StepU`: at a first `(` it erases that `(` and then the first `)` of what is left and builds `( <E> )` with the cursor on `<E>`; at a first `-` it erases nothing and builds `- <U> NULL` with the cursor on the new `<U>`; at a first `num` it is the leaf step; with none of the three the state is unchanged |
| Parser.ExpandStep | Compilador.cpp:268-346 | an `<E>` or `<T>` turn at a bare node, whole: the arena grows by three nodes under the cursor, the operator found (if any) leaves the stream, and the cursor moves to the new left child after an operator and to the new middle child otherwise |
| Parser.StepLeaf | Compilador.cpp:384-413 | the `num` token is erased; when a value is pending, exactly one leaf is appended to `ultimos` and the value list loses its head; the walk up from the parent decides the rest: at a pending node its operator is logged and the cursor moves to its right operand, otherwise nothing is logged and the cursor becomes null |
| Parser.StepLeafShape | Compilador.cpp:384-398 | `NULL num NULL` below the cursor, then the literal hung below the `num` node, and that literal node appended to `ultimos` |
| Parser.LeafStep | Compilador.cpp:384-413 | a `num` turn at a bare `<U>`, whole: the token and the first value go, six nodes are appended with the literal under the new `num`, the literal becomes the newest leaf, and the cursor and log follow the walk up |
| Parser.WalkOne | Compilador.cpp:399-412 | one turn of the walk: past a node with nothing pending it goes on to the parent; at a pending node it stops with that node's operator and right operand |
| Parser.WalkUpNone | Compilador.cpp:399-412 | the walk ends with a null cursor exactly when no node met going up has a pending binary operator |
| Parser.WalkUpNearest | Compilador.cpp:399-412 | otherwise it stops at the nearest such node, logs its operator and moves to its right operand |
| Parser.Step | Compilador.cpp:265-415 | one iteration keeps the arena well formed and only grows it |
| Parser.Run | Compilador.cpp:265-266 | when the loop ends it ends with no tokens left or a null cursor |
| Parser.RunMono | Compilador.cpp:265-266 | a run that ends within a budget ends in the same state with any larger budget |
| Parser.MinusLoops | Compilador.cpp:376-383 | a bare `<U>` whose first `num`, `-` or `(` is a `-` never lets the loop end: the `-` is not erased and the new `<U>` sees the same stream |
| Parser.NoHeadLoops | Compilador.cpp:347-363 | a `<U>` with tokens left but no `num`, `-` or `(` among them changes nothing, so the loop never ends |
| Parser.ExprMinusLoops | Compilador.cpp:268-383 | from a bare `<E>` over a stream with no operator for `<E>` or `<T>` whose first `num`, `-` or `(` is a `-`, the loop never ends |
| Parser.LeadingMinusLoops | Compilador.cpp:261-383 | such a stream makes the whole parse loop for every budget |
| Parser.MinusOneLoops | Compilador.cpp:261-383 | the parse of `- num` (the input `-1`) never ends |
| Parser.StepLeafInv | Compilador.cpp:384-398 | the `num` case consumes the first pending value and makes it the newest leaf, keeping the invariant |
| Parser.StepInv | Compilador.cpp:265-415 | one iteration keeps the invariant: bound leaf texts followed by pending values are the lexer's values, the `num` count equals the pending-value count, and no more operators are logged than leaves |
| Parser.StepBalanced | Compilador.cpp:384-413 | one iteration keeps the balance of log and leaves: as many operators as leaves while the cursor is live, one fewer once it is null |
| Parser.RunInv | Compilador.cpp:265-415 | the whole loop keeps that invariant |
| Parser.ParseLeaves | Compilador.cpp:261-416 | after parsing with no tokens left, `ultimos` holds exactly the lexer's literal texts in source order; the log has as many operators as leaves if the cursor is still live and exactly one fewer if it is null |
| CodeGen.LoadsClosed | Compilador.cpp:429-434 | line `i` of the first loop loads leaf `i` into `t[i]` |
| CodeGen.CombineClosed | Compilador.cpp:437-455 | the stack discipline of the second loop in closed form: line `k` writes `t[n+k]` from `t[n-2-k]` and the newest register, with the `k`-th operator from the back of the log |
| CodeGen.Generate | Compilador.cpp:422-460 | `n + m + 1` lines: the loads, the combining lines in closed form, then the copy `t[n+m] = t[n+m-1]` |
| CodeGen.GeneratedRegisters | Compilador.cpp:429-457 | every line writes the register of its own position and reads only registers written by earlier lines |
| Numbers.Stof | Compilador.cpp:488 | conversion fails exactly on a text that starts neither with a digit nor with `.` followed by a digit |
| Numbers.StofNatText | Compilador.cpp:488 | converting the decimal text of any natural number gives that number back |
| Numbers.StofDigits | Compilador.cpp:488 | a non-empty run of digits converts to its decimal value |
| Numbers.StofPoint | Compilador.cpp:488 | digits `w`, a point and digits `f`, not both empty, convert to `w + f / 10^|f|` |
| Numbers.FracValueScaled | Compilador.cpp:488 | the digits after the point are worth their integer value over `10^|f|` |
| Numbers.StofTrailingPoint | Compilador.cpp:488 | `5.` converts to 5 |
| Numbers.StofLeadingPoint | Compilador.cpp:488 | `.5` converts to 0.5 |
| Numbers.StofBothSides | Compilador.cpp:488 | `12.25` converts to 12.25 |
| Numbers.Read | Compilador.cpp:473-510 | error 3 exactly for a literal with two or more `.`; success exactly when there are at most one `.` and a readable prefix; the float flag is set exactly for one `.` |
| Numbers.ApplyOp | Compilador.cpp:528-546 | fails exactly on `/` by a zero register, and only with error 4 |
| Evaluator.ExecLine | Compilador.cpp:470-549 | a conversion goes through only with at most one `.` and raises the float flag exactly for one; an operation leaves the flag alone; error 3 names a leaf with two or more `.`, error 4 a division |
| Evaluator.ExecFromFacts | Compilador.cpp:469-550 | the loop ends with the float flag up exactly when some executed line converts a one-`.` literal; error 3 and error 4 each point at a line that causes it |
| Evaluator.Final | Compilador.cpp:552-565 | the result is the register named after `= t[` on the last line, announced as a float exactly when the flag is up |
| Evaluator.Zeros | Compilador.cpp:465 | `n` registers, all 0 |
| Evaluator.Evaluate | Compilador.cpp:463-567 | the result is announced as a float exactly when some converted literal has one `.`; error 3 and error 4 each point at a line that causes them |
| Semantics.ReadAll | Compilador.cpp:473-510 | reading all literals succeeds exactly when each has at most one `.` and a readable prefix, giving each literal's value in order |
| Semantics.ReadAllErrors | Compilador.cpp:473-510 | reading fails only with error 3, which names a literal with two or more `.`, or with an unreadable literal; on success the float flag is up exactly when some literal has one `.` |
| Semantics.Fold | Compilador.cpp:437-455 | the reference value fails only by a division by zero, and only when the log holds a `/` |
| Semantics.FoldAdds | Compilador.cpp:437-455 | with only `+` in the log the reference value is the sum of the literals |
| Semantics.CombiningFold | Compilador.cpp:437-455 | the register-by-register combination computes the right fold of the unused literals and operators around the accumulator |
| Semantics.CombiningAll | Compilador.cpp:437-455 | the whole combination computes the right fold of the last `|ops| + 1` literals |
| Semantics.LoadPhase | Compilador.cpp:469-511 | running the loads reads the literals in order into their registers, or stops with the first literal's error |
| Semantics.ApplyPhase | Compilador.cpp:512-547 | running the combining lines and the last line performs the register-by-register combination and reports its result with the flag untouched |
| Semantics.Reference | Compilador.cpp:463-567 | the reference outcome is a float exactly when a literal has one `.`; it fails only with error 3 for a literal with two or more `.`, an unreadable literal, or error 4 |
| Semantics.EvaluateGenerated | Compilador.cpp:422-567 | with at most ten registers in the loop, every register number is one digit and running the generated code gives the reference outcome |
| Compiler.Front | Compilador.cpp:618-628 | error 1 exactly when lexing fails; error 2 exactly when the gate fires on the lexed tokens; on success the leaf texts are a prefix of the lexer's values and there is exactly one operator fewer than leaves |
| Compiler.FrontFuel | Compilador.cpp:618-628 | any outcome of the front end other than running out of budget is the outcome for every larger budget |
| Compiler.Backend | Compilador.cpp:629 | within ten registers the outcome is the reference outcome; beyond, a register number would need two digits; it never raises error 1 or 2 |
| Compiler.Compile | Compilador.cpp:612-644 | error 1 exactly for a character outside the accepted set; error 2 exactly when the gate fires on an input that lexes; a result is the reference value, the right fold of the operator log over all the parsed literals |
| Compiler.CompileFuel | Compilador.cpp:612-644 | any outcome other than running out of budget is the outcome for every larger budget |
| Tokens.CountNumAppend | Compilador.cpp:214-220 | the `num` count of two streams joined is the sum of their counts |
| Tokens.RemoveAtCount | Compilador.cpp:291 | erasing one token lowers the `num` count by one exactly when the token was a `num` |
| Walkthrough.TraceStep2 | Compilador.cpp:365-376 | on `( num + num ) * num` the `<U>` turn erases the `(` and the `)` together, leaving `num + num * num` |
| Walkthrough.ParenTimesParse | Compilador.cpp:261-416 | the parse of the tokens of `(2+3)*4` ends, for every budget of at least twelve turns, with no tokens, a null cursor, the leaves `2`, `3`, `4` and the log `[*, +]` |
| Walkthrough.ParenTimesPasses | Compilador.cpp:224-257 | the gate lets the tokens of `(2+3)*4` through |
| Walkthrough.ParenTimesValue | Compilador.cpp:422-567 | the leaves `2`, `3`, `4` with the log `[*, +]` have the reference value `2 * (3 + 4)`, the integer 14 |
| Walkthrough.ParenTimesCompiles | Compilador.cpp:612-644 | an input that lexes to the tokens and values of `(2+3)*4` compiles to the integer 14 |

## Left out

- Console and process I/O are not modelled: `cout`, `getline`, `cin`, and the `exit(0)` inside `errores`. Each error is a returned value.
- The OpenGL window and tree drawing are not modelled: `verArbol`, `display`, `teclado`, `dibujar*`, `initOpenGL`, and the closing prompt of `main`. They do not affect the result.
- `esNumero` and its regular expression are not modelled. Only the drawing code calls it.
- Lexer.Lex: a Dafny `string` is a sequence of Unicode scalar values, while `entrada[i]` in the source is one byte of the input. For a character outside ASCII, such as the `é` of `4é2`, error 1 in the source names the first byte of its UTF-8 encoding; the model names the whole character.
- Numbers.ApplyOp: registers hold exact `real` values, not 32-bit `float`. Rounding, overflow, infinities and the `float` comparison with 0 are therefore not modelled, and real-field identities such as `(a + b) - b == a` are not promised for the source, where `1 + 1e8` already rounds to `1e8`.
- Numbers.Stof: models `stof` only on texts of digits and dots, which is all the lexer lets through. When nothing can be read the model reports `Undefined`, where the source throws an uncaught exception. `out_of_range` on huge literals is not modelled, and the value is the exact decimal, not its nearest `float`.
- Evaluator.Evaluate: the evaluator reads each line back from text, taking one character after `[` as the register number. The model runs structured `Instr` lines instead, and requires as a precondition that every register number read has one digit.
- Compiler.Backend: with more than ten registers in the loop (`leaves + operators > 10`), the source misreads two-digit register numbers. The model reports `TooManyRegisters` instead of reproducing the misread. It does so before running any line, so error 3 or error 4, which the source can raise on an earlier line, is reported as `TooManyRegisters` there.
- Parser.Run: the loop is bounded by a step budget `fuel` and returns `None` when the budget runs out. The source loop does not always stop. A `-` reached from `<U>` expands `- <U> NULL` without consuming the `-`, so unary minus loops forever (`Parser.MinusLoops`). A `<U>` with tokens left but no `num`, `-` or `(` among them, as after `1+)`, changes nothing and loops forever too (`Parser.NoHeadLoops`).
- Compiler.Front: a parse whose cursor is still live when the tokens run out has logged as many operators as leaves, and the model reports `Undefined`. In the source, with at least one operator, `generarLenguaje` then pops an empty vector. With no leaf and no operator, as for an empty input, it emits `t[0] = t[-1]`, and the evaluator reads the register at index `'-' - '0'`.
- The gate's read of `cadena[i + 1]` one past the end, when an operator is the last token, counts as "no `(` follows".
- Tree.Insert: nodes live in an arena addressed by index, not on the heap. When the literal is hung below its `num` node, the source inserts the middle child before the side children. Only arena positions differ; labels and shape do not.

## Behaviour worth knowing

The model keeps each of these behaviours of the code, and a lemma states each one:

- The gate is a heuristic. `1++2` passes it: rule A compares operator `i` with the token two places on, which here is `num` (`Gate.OnePlusPlusTwoPasses`).
- `(2+3)*4` evaluates to the integer 14, where the usual reading gives 20. The parse logs `[*, +]` with the leaves `2`, `3`, `4` (`Walkthrough.ParenTimesParse`). The generator pairs each logged operator with the literals from the back of `ultimos`, a right fold whatever the tree's shape, so the value is `2 * (3 + 4)` (`Walkthrough.ParenTimesValue`, `Walkthrough.ParenTimesCompiles`).
- After a `(`, the erase loop removes the first `)` of the whole remaining stream, not the one matching the `(` (`Parser.EraseFirstClose`, `Parser.StepUShape`).
- The `*` and `/` productions give `<T> op <T>`, with a `<T>` as the right child rather than a `<U>` (`Parser.StepTShape`).
- Error 1 prints `cadena[0]`. Since `cadena` is still empty when the character test of Compilador.cpp:176-181 runs, that is the rejected character itself (`Lexer.Lex`).
- Unary minus and a `<U>` with nothing to read make the parser loop (`Parser.MinusOneLoops`, `Parser.NoHeadLoops`).
