/** `encontrarAmbiguedad` (Compilador.cpp:224-257): a heuristic pre-parse
    scan over the token stream. It never changes the tokens; it only says
    whether to stop with error 2. */
module Gate {
  import opened Tokens

  /** `cadena[i + 1] == "("`. The source reads one past the end when the
      operator is the last token; that read is taken as "no `(` follows". */
  predicate OpenFollows(t: seq<Token>, i: nat) {
    i + 1 < |t| && t[i + 1] == Open
  }

  /** Rule A: an operator of the same class two positions further on. */
  predicate TwoApart(t: seq<Token>, i: nat) {
    i + 2 < |t| && SameClass(t[i], t[i + 2])
  }

  /** Rule B's target: a `)` directly followed by an operator of the class of `u`. */
  predicate CloseThen(t: seq<Token>, j: nat, u: Token) {
    j + 1 < |t| && t[j] == Close && SameClass(t[j + 1], u)
  }

  /** The inner loop: a forward scan from `j` for a `)` that is followed by
      an operator of the same class as `u`, with no regard for nesting. */
  function ScanClose(t: seq<Token>, j: nat, u: Token): (found: bool)
    ensures found <==> exists p :: j <= p < |t| && CloseThen(t, p, u)
    decreases |t| - j
  {
    if j >= |t| then false
    else CloseThen(t, j, u) || ScanClose(t, j + 1, u)
  }

  /** The outer loop from position `i`: at each operator check rule A; at
      the first operator followed by `(`, run the inner scan and stop. */
  predicate Flags(t: seq<Token>, i: nat)
    decreases |t| - i
  {
    if i >= |t| then false
    else if IsOperator(t[i]) then
      if TwoApart(t, i) then true
      else if OpenFollows(t, i) then ScanClose(t, i, t[i])
      else Flags(t, i + 1)
    else Flags(t, i + 1)
  }

  /** An operator followed by `(`: the place where the outer scan ends. */
  predicate Stops(t: seq<Token>, k: nat) {
    k < |t| && IsOperator(t[k]) && OpenFollows(t, k)
  }

  /** The gate fires at operator `i` by rule A, or by rule B when `(` follows. */
  predicate FiresAt(t: seq<Token>, i: nat) {
    && i < |t| && IsOperator(t[i])
    && (TwoApart(t, i) || (OpenFollows(t, i) && exists p :: i <= p < |t| && CloseThen(t, p, t[i])))
  }

  /** Declarative reading of the gate: some operator fires, and no earlier
      operator is followed by `(`. */
  predicate Ambiguous(t: seq<Token>) {
    exists i :: 0 <= i < |t| && FiresAt(t, i) && forall k :: 0 <= k < i ==> !Stops(t, k)
  }

  /** The scan from `i` fires exactly when some operator at or after `i`
      fires before the scan has met an operator followed by `(`. */
  lemma {:induction false} FlagsFrom(t: seq<Token>, i: nat)
    ensures Flags(t, i) <==> exists p :: i <= p < |t| && FiresAt(t, p) && forall k :: i <= k < p ==> !Stops(t, k)
    decreases |t| - i
  {
    if i < |t| {
      FlagsFrom(t, i + 1);
      if Flags(t, i) {
        if !FiresAt(t, i) {
          assert !Stops(t, i);
          var p :| i + 1 <= p < |t| && FiresAt(t, p) && forall k :: i + 1 <= k < p ==> !Stops(t, k);
          assert forall k :: i <= k < p ==> !Stops(t, k);
        }
      } else {
        forall p | i <= p < |t| && FiresAt(t, p)
          ensures exists k :: i <= k < p && Stops(t, k)
        {
          if p == i {
            assert false;
          } else if Stops(t, i) {
            assert i <= i < p;
          } else {
            assert exists k :: i + 1 <= k < p && Stops(t, k);
          }
        }
      }
    } else {
      forall p | i <= p
        ensures !FiresAt(t, p)
      {
      }
    }
  }

  /** `encontrarAmbiguedad` reports error 2 exactly when the gate is
      ambiguous in the declarative sense. */
  lemma GateSpec(t: seq<Token>)
    ensures Flags(t, 0) <==> Ambiguous(t)
  {
    FlagsFrom(t, 0);
  }

  /** Rule A: an operator whose same-class partner sits two positions on
      stops the run, provided no earlier operator is followed by `(`. */
  lemma RuleA(t: seq<Token>, i: nat)
    requires i < |t| && IsOperator(t[i]) && TwoApart(t, i)
    requires forall k :: 0 <= k < i ==> !Stops(t, k)
    ensures Flags(t, 0)
  {
    GateSpec(t);
    assert FiresAt(t, i);
  }

  /** Rule B and the early stop: at the first operator followed by `(`
      (and not caught by rule A) the verdict is the inner scan's, whatever
      operators come later. */
  lemma RuleB(t: seq<Token>, i: nat)
    requires Stops(t, i) && !TwoApart(t, i)
    requires forall k :: 0 <= k < i ==> !Stops(t, k) && !FiresAt(t, k)
    ensures Flags(t, 0) <==> exists p :: i <= p < |t| && CloseThen(t, p, t[i])
  {
    GateSpec(t);
    if Flags(t, 0) {
      var q :| 0 <= q < |t| && FiresAt(t, q) && forall k :: 0 <= k < q ==> !Stops(t, k);
      if q < i {
        assert false;
      } else if q > i {
        assert false;
      }
    } else {
      assert !FiresAt(t, i);
    }
  }

  /** `1++2` passes: rule A at the first `+` looks two places on and finds
      `num`, at the second `+` there is no token two places on, and no `(`
      follows either operator, so the inner scan never runs. */
  lemma OnePlusPlusTwoPasses()
    ensures !Flags([Num, Plus, Plus, Num], 0)
    ensures !Ambiguous([Num, Plus, Plus, Num])
  {
    GateSpec([Num, Plus, Plus, Num]);
  }
}
