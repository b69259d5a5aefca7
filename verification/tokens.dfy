/** The token vocabulary shared by the gate and the parser.

    In the source a token is a `string`; after lexing it is always `num` or
    one of the six one-character operator and parenthesis strings, so a
    closed datatype loses nothing. */
module Tokens {

  datatype Token = Num | Plus | Minus | Star | Slash | Open | Close

  /** The binary operators that the parser logs and the evaluator applies. */
  datatype BinOp = Add | Sub | Mul | Div

  /** The two precedence classes the ambiguity gate compares. */
  datatype Class = Additive | Multiplicative

  /** The source text of a token. */
  function Text(t: Token): string {
    match t
    case Num => "num"
    case Plus => "+"
    case Minus => "-"
    case Star => "*"
    case Slash => "/"
    case Open => "("
    case Close => ")"
  }

  /** The one-character operator and parenthesis glyphs `+*()-/`. */
  predicate IsGlyph(c: char) {
    c == '+' || c == '*' || c == '(' || c == ')' || c == '-' || c == '/'
  }

  /** The token a one-character glyph lexeme becomes. */
  function GlyphToken(c: char): (t: Token)
    requires IsGlyph(c)
    ensures Text(t) == [c]
  {
    if c == '+' then Plus
    else if c == '-' then Minus
    else if c == '*' then Star
    else if c == '/' then Slash
    else if c == '(' then Open
    else Close
  }

  predicate IsOperator(t: Token) {
    t == Plus || t == Minus || t == Star || t == Slash
  }

  /** The precedence class of an operator token (`+`/`-` or `*`/`/`). */
  function ClassOf(t: Token): Class
    requires IsOperator(t)
  {
    if t == Plus || t == Minus then Additive else Multiplicative
  }

  predicate SameClass(t: Token, u: Token) {
    IsOperator(t) && IsOperator(u) && ClassOf(t) == ClassOf(u)
  }

  /** How many `num` markers a token stream holds. */
  function CountNum(ts: seq<Token>): nat {
    if ts == [] then 0 else (if ts[0] == Num then 1 else 0) + CountNum(ts[1..])
  }

  lemma {:induction false} CountNumAppend(a: seq<Token>, b: seq<Token>)
    ensures CountNum(a + b) == CountNum(a) + CountNum(b)
  {
    if a == [] {
      assert a + b == b;
    } else {
      assert (a + b)[0] == a[0] && (a + b)[1..] == a[1..] + b;
      CountNumAppend(a[1..], b);
    }
  }

  /** `vector::erase` at one position. */
  function RemoveAt<T>(s: seq<T>, i: nat): (r: seq<T>)
    requires i < |s|
    ensures |r| == |s| - 1
    ensures forall k :: 0 <= k < i ==> r[k] == s[k]
    ensures forall k :: i <= k < |r| ==> r[k] == s[k + 1]
  {
    s[..i] + s[i + 1..]
  }

  /** Erasing the element between two runs leaves the two runs joined. */
  lemma RemoveAtJoin<T>(x: seq<T>, v: T, y: seq<T>)
    ensures RemoveAt(x + [v] + y, |x|) == x + y
  {
    assert (x + [v] + y)[..|x|] == x && (x + [v] + y)[|x| + 1..] == y;
  }

  /** Erasing one token lowers the `num` count by one exactly when that
      token was a `num`. */
  lemma RemoveAtCount(ts: seq<Token>, i: nat)
    requires i < |ts|
    ensures CountNum(RemoveAt(ts, i)) == CountNum(ts) - (if ts[i] == Num then 1 else 0)
  {
    var a, c, b := ts[..i], [ts[i]], ts[i + 1..];
    assert ts == a + (c + b);
    CountNumAppend(a, c + b);
    CountNumAppend(c, b);
    assert c[1..] == [];
    assert RemoveAt(ts, i) == a + b;
    CountNumAppend(a, b);
  }
}
