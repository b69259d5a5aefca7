/** Literal conversion and arithmetic as `resolverOperacion`
    (Compilador.cpp:463-567) uses them. The source keeps every register
    as a C++ `float`; here a register is an exact `real`, so rounding and
    overflow are not modelled. */
module Numbers {
  import opened Results
  import opened Tokens

  /** A result as the evaluator reports it: its value, and whether it is
      announced with `to_float` rather than `to_int`. */
  datatype Number = Number(value: real, isFloat: bool)

  predicate IsDigit(c: char) {
    '0' <= c <= '9'
  }

  function DigitValue(c: char): (d: nat)
    requires IsDigit(c)
    ensures d < 10
  {
    (c as int) - ('0' as int)
  }

  predicate AllDigits(s: string) {
    forall i :: 0 <= i < |s| ==> IsDigit(s[i])
  }

  /** How many `.` a literal holds: `find_first_of('.')` and the second
      search after it (Compilador.cpp:475, 491) only tell 0, 1 and "2 or
      more" apart. */
  function DotCount(s: string): nat {
    if s == [] then 0 else (if s[0] == '.' then 1 else 0) + DotCount(s[1..])
  }

  /** The length of the run of digits at the start of `s`. */
  function LeadingDigits(s: string): (k: nat)
    ensures k <= |s| && AllDigits(s[..k])
    ensures k < |s| ==> !IsDigit(s[k])
  {
    if s == [] || !IsDigit(s[0]) then 0
    else
      var k := 1 + LeadingDigits(s[1..]);
      assert forall i :: 1 <= i < k ==> s[..k][i] == s[1..][..k - 1][i - 1];
      k
  }

  /** The value of a run of decimal digits. */
  function IntValue(ds: string): nat
    requires AllDigits(ds)
    decreases |ds|
  {
    if ds == [] then 0 else IntValue(ds[..|ds| - 1]) * 10 + DigitValue(ds[|ds| - 1])
  }

  /** The value of the digits after a decimal point. */
  function FracValue(ds: string): (v: real)
    requires AllDigits(ds)
    ensures 0.0 <= v < 1.0
    decreases |ds|
  {
    if ds == [] then 0.0
    else (DigitValue(ds[0]) as real + FracValue(ds[1..])) / 10.0
  }

  /** `stof` on the texts the lexer lets through: it reads the longest
      prefix of digits, optionally followed by a point and more digits. With
      no digit in that prefix it throws, which the source does not catch: that
      is exactly a text that starts neither with a digit nor with a point
      followed by a digit. */
  function Stof(s: string): (r: Option<real>)
    ensures r.Some? ==> r.value >= 0.0
    ensures r.None? <==> LeadingDigits(s) == 0 && (|s| == 0 || s[0] != '.' || LeadingDigits(s[1..]) == 0)
  {
    var a := LeadingDigits(s);
    var whole := IntValue(s[..a]) as real;
    if a < |s| && s[a] == '.' then
      var b := LeadingDigits(s[a + 1..]);
      if a + b == 0 then None else Some(whole + FracValue(s[a + 1..][..b]))
    else if a == 0 then None
    else Some(whole)
  }

  /** The decimal text of a natural number, as a reference printer. */
  function NatText(n: nat): (s: string)
    ensures |s| > 0 && AllDigits(s)
  {
    var d := ['0' + (n % 10) as char];
    if n < 10 then d else NatText(n / 10) + d
  }

  /** Reading the printed digits back gives the number. */
  lemma {:induction false} IntValueNatText(n: nat)
    ensures IntValue(NatText(n)) == n
  {
    var s := NatText(n);
    assert DigitValue(s[|s| - 1]) == n % 10;
    if n >= 10 {
      IntValueNatText(n / 10);
      assert s[..|s| - 1] == NatText(n / 10);
    }
  }

  /** `stof` reads a whole digit string, so it reads back any printed
      natural number exactly. */
  lemma StofNatText(n: nat)
    ensures Stof(NatText(n)) == Some(n as real)
  {
    var s := NatText(n);
    IntValueNatText(n);
    AllDigitsLeading(s);
    assert s[..|s|] == s;
  }

  lemma {:induction false} AllDigitsLeading(s: string)
    requires AllDigits(s)
    ensures LeadingDigits(s) == |s|
  {
    if s != [] {
      AllDigitsLeading(s[1..]);
    }
  }

  function Pow10(n: nat): (p: nat)
    ensures p >= 1
  {
    if n == 0 then 1 else 10 * Pow10(n - 1)
  }

  /** A run of digits that stops at a character other than a digit. */
  lemma {:induction false} LeadingDigitsStop(w: string, rest: string)
    requires AllDigits(w) && rest != [] && !IsDigit(rest[0])
    ensures LeadingDigits(w + rest) == |w|
  {
    if w == [] {
      assert w + rest == rest;
    } else {
      assert (w + rest)[0] == w[0] && (w + rest)[1..] == w[1..] + rest;
      LeadingDigitsStop(w[1..], rest);
    }
  }

  /** The value of a run of digits, taken from its first digit. */
  lemma {:induction false} IntValueFront(ds: string)
    requires AllDigits(ds) && ds != []
    ensures IntValue(ds) == DigitValue(ds[0]) * Pow10(|ds| - 1) + IntValue(ds[1..])
    decreases |ds|
  {
    var n := |ds|;
    if n == 1 {
      assert ds[..0] == [] && ds[1..] == [];
    } else {
      var init, tail := ds[..n - 1], ds[1..];
      IntValueFront(init);
      assert init[0] == ds[0] && init[1..] == tail[..n - 2] && tail[n - 2] == ds[n - 1];
      assert IntValue(tail) == IntValue(init[1..]) * 10 + DigitValue(ds[n - 1]);
      Regroup(DigitValue(ds[0]), Pow10(n - 2), IntValue(init[1..]), DigitValue(ds[n - 1]));
    }
  }

  lemma Regroup(d: int, p: int, x: int, l: int)
    ensures (d * p + x) * 10 + l == d * (10 * p) + (x * 10 + l)
  {}

  /** The digits after a point are the integer they spell over the
      matching power of ten. */
  lemma {:induction false} FracValueScaled(ds: string)
    requires AllDigits(ds)
    ensures FracValue(ds) == IntValue(ds) as real / Pow10(|ds|) as real
    decreases |ds|
  {
    if ds != [] {
      var r := ds[1..];
      FracValueScaled(r);
      IntValueFront(ds);
      var d, p, i := DigitValue(ds[0]), Pow10(|r|), IntValue(r);
      assert Pow10(|ds|) == 10 * p;
      assert FracValue(ds) == (d as real + FracValue(r)) / 10.0;
      Shift(d, p, i);
    }
  }

  lemma Shift(d: int, p: int, i: int)
    requires p >= 1
    ensures (d as real + i as real / p as real) / 10.0 == (d * p + i) as real / (10 * p) as real
  {
    assert (d * p + i) as real == d as real * p as real + i as real;
    assert (10 * p) as real == 10.0 * p as real;
  }

  /** `stof` on a literal with one point: the digits before it are the
      whole part, those after it the fraction, and either side may be
      empty (`5.`, `.5`) but not both. */
  lemma StofPoint(w: string, f: string)
    requires AllDigits(w) && AllDigits(f) && |w| + |f| >= 1
    ensures Stof(w + "." + f).Some?
    ensures Stof(w + "." + f).value == IntValue(w) as real + IntValue(f) as real / Pow10(|f|) as real
  {
    PointParts(w, f);
    StofPointAt(w + "." + f, w, f);
    FracValueScaled(f);
  }

  lemma PointParts(w: string, f: string)
    requires AllDigits(w) && AllDigits(f)
    ensures var s := w + "." + f;
      && LeadingDigits(s) == |w| && s[..|w|] == w && s[|w|] == '.' && s[|w| + 1..] == f
      && LeadingDigits(f) == |f|
  {
    var s := w + "." + f;
    assert s == w + ("." + f);
    LeadingDigitsStop(w, "." + f);
    AllDigitsLeading(f);
  }

  lemma StofPointAt(s: string, w: string, f: string)
    requires |w| < |s| && LeadingDigits(s) == |w| && s[..|w|] == w && s[|w|] == '.'
    requires s[|w| + 1..] == f && LeadingDigits(f) == |f| && |w| + |f| >= 1
    ensures AllDigits(w) && AllDigits(f)
    ensures Stof(s) == Some(IntValue(w) as real + FracValue(f))
  {
    assert f[..|f|] == f;
  }

  /** `stof` on a literal without a point reads all of its digits. */
  lemma StofDigits(w: string)
    requires AllDigits(w) && w != []
    ensures Stof(w) == Some(IntValue(w) as real)
  {
    AllDigitsLeading(w);
    assert w[..|w|] == w;
  }

  /** `5.` keeps its whole part and nothing after the point. */
  lemma StofTrailingPoint()
    ensures Stof("5.") == Some(5.0)
  {
    assert "5" + "." + "" == "5.";
    StofPoint("5", "");
    assert IntValue("5") == 5 by { assert "5"[..0] == ""; }
  }

  /** `.5` has no whole part: the point opens the fraction. */
  lemma StofLeadingPoint()
    ensures Stof(".5") == Some(0.5)
  {
    assert "" + "." + "5" == ".5";
    StofPoint("", "5");
    assert IntValue("5") == 5 by { assert "5"[..0] == ""; }
    assert Pow10(1) == 10;
  }

  lemma StofBothSides()
    ensures Stof("12.25") == Some(12.25)
  {
    assert "12" + "." + "25" == "12.25";
    StofPoint("12", "25");
    assert IntValue("12") == 12 by { assert "12"[..1] == "1" && "1"[..0] == ""; }
    assert IntValue("25") == 25 by { assert "25"[..1] == "2" && "2"[..0] == ""; }
    assert Pow10(2) == 100;
  }

  /** The conversion of one literal (Compilador.cpp:473-510): a second `.`
      is error 3; a literal `stof` cannot read has no defined outcome;
      otherwise its value, and whether a `.` makes it a float. */
  function Read(text: string): (r: Result<(real, bool)>)
    ensures r == Failure(MalformedNumber) <==> DotCount(text) >= 2
    ensures r.Success? <==> DotCount(text) <= 1 && Stof(text).Some?
    ensures r.Success? ==> (r.value.1 <==> DotCount(text) == 1)
    ensures r.Success? ==> Stof(text) == Some(r.value.0)
  {
    var dots := DotCount(text);
    if dots >= 2 then Failure(MalformedNumber)
    else
      match Stof(text)
      case None => Failure(Undefined)
      case Some(v) => Success((v, dots == 1))
  }

  /** One operator applied to two register values (Compilador.cpp:530-546):
      a division by a zero register is error 4. */
  function ApplyOp(op: BinOp, a: real, b: real): (r: Result<real>)
    ensures r.Failure? <==> op == Div && b == 0.0
    ensures r.Failure? ==> r.error == DivisionByZero
  {
    match op
    case Add => Success(a + b)
    case Sub => Success(a - b)
    case Mul => Success(a * b)
    case Div => if b == 0.0 then Failure(DivisionByZero) else Success(a / b)
  }
}
