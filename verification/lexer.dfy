/** `lexer` (Compilador.cpp:171-221): validate the character set, cut the
    input into lexemes at operators, parentheses and spaces, then replace
    every all-digit-or-dot lexeme by `num` and set its text aside. */
module Lexer {
  import opened Results
  import opened Tokens

  /** The characters of a literal: the set `0123456789.` that the
      classification loop tests with `find_first_not_of`. */
  predicate IsNumChar(c: char) {
    '0' <= c <= '9' || c == '.'
  }

  /** The delimiter set `" +*()-/"` given to `find_first_of`. */
  predicate IsDelimiter(c: char) {
    c == ' ' || IsGlyph(c)
  }

  /** `caracteres_validos` (`0123456789.+*()-/`); a space is allowed too,
      as a delimiter only. */
  predicate IsInputChar(c: char) {
    IsNumChar(c) || IsGlyph(c) || c == ' '
  }

  predicate AllNumChars(w: string) {
    forall i :: 0 <= i < |w| ==> IsNumChar(w[i])
  }

  /** What the classification loop can turn into a token. */
  predicate Classifiable(w: string) {
    |w| > 0 && (AllNumChars(w) || (|w| == 1 && IsGlyph(w[0])))
  }

  /** A lexeme is a one-character glyph or a non-empty run of characters
      that are not delimiters. */
  predicate IsLexeme(w: string) {
    || (|w| == 1 && IsGlyph(w[0]))
    || (|w| > 0 && forall i :: 0 <= i < |w| ==> !IsDelimiter(w[i]))
  }

  /** The input with every space dropped. */
  function NoSpaces(s: string): string {
    if s == [] then []
    else (if s[0] == ' ' then [] else [s[0]]) + NoSpaces(s[1..])
  }

  function Concat(ws: seq<string>): string {
    if ws == [] then [] else ws[0] + Concat(ws[1..])
  }

  /** The position of the first character the validation loop rejects. */
  function FirstInvalid(s: string, from: nat): (r: Option<nat>)
    requires from <= |s|
    ensures r.None? ==> forall i :: from <= i < |s| ==> IsInputChar(s[i])
    ensures r.Some? ==> from <= r.value < |s| && !IsInputChar(s[r.value])
    ensures r.Some? ==> forall i :: from <= i < r.value ==> IsInputChar(s[i])
    decreases |s| - from
  {
    if from == |s| then None
    else if !IsInputChar(s[from]) then Some(from)
    else FirstInvalid(s, from + 1)
  }

  /** `entrada.find_first_of(" +*()-/", aux)`. */
  function FindDelimiter(s: string, aux: nat): (r: Option<nat>)
    requires aux <= |s|
    ensures r.None? ==> forall i :: aux <= i < |s| ==> !IsDelimiter(s[i])
    ensures r.Some? ==> aux <= r.value < |s| && IsDelimiter(s[r.value])
    ensures r.Some? ==> forall i :: aux <= i < r.value ==> !IsDelimiter(s[i])
    decreases |s| - aux
  {
    if aux == |s| then None
    else if IsDelimiter(s[aux]) then Some(aux)
    else FindDelimiter(s, aux + 1)
  }

  /** The run of non-delimiters before a delimiter, as a lexeme if it is
      not empty (`if (pos > aux)`). */
  function Flush(cur: string): seq<string> {
    if cur == [] then [] else [cur]
  }

  /** The segmentation loop (Compilador.cpp:184-211) from position `aux`:
      every lexeme is a glyph or a run of non-delimiters, and gluing the
      lexemes back together gives the rest of the input without spaces. */
  function Segment(s: string, aux: nat): (ws: seq<string>)
    requires aux <= |s|
    ensures forall k :: 0 <= k < |ws| ==> IsLexeme(ws[k])
    ensures Concat(ws) == NoSpaces(s[aux..])
    decreases |s| - aux
  {
    if aux == |s| then []
    else
      match FindDelimiter(s, aux)
      case None =>
        NoDelimiterNoSpaces(s[aux..]);
        [s[aux..]]
      case Some(pos) =>
        var before := Flush(s[aux..pos]);
        var glyph := if s[pos] == ' ' then [] else [[s[pos]]];
        var rest := Segment(s, pos + 1);
        SegmentStep(s, aux, pos, before, glyph, rest);
        SegmentLexemes(s, aux, pos, before, glyph, rest);
        before + glyph + rest
  }

  lemma SegmentLexemes(s: string, aux: nat, pos: nat, before: seq<string>, glyph: seq<string>, rest: seq<string>)
    requires aux <= pos < |s| && IsDelimiter(s[pos])
    requires forall i :: aux <= i < pos ==> !IsDelimiter(s[i])
    requires before == Flush(s[aux..pos])
    requires glyph == if s[pos] == ' ' then [] else [[s[pos]]]
    requires forall k :: 0 <= k < |rest| ==> IsLexeme(rest[k])
    ensures forall k :: 0 <= k < |before + glyph + rest| ==> IsLexeme((before + glyph + rest)[k])
  {
    var ws := before + glyph + rest;
    forall k | 0 <= k < |ws| ensures IsLexeme(ws[k]) {
      if k < |before| {
        assert ws[k] == s[aux..pos];
      } else if k < |before| + |glyph| {
        assert ws[k] == [s[pos]];
      } else {
        assert ws[k] == rest[k - |before| - |glyph|];
      }
    }
  }

  lemma SegmentStep(s: string, aux: nat, pos: nat, before: seq<string>, glyph: seq<string>, rest: seq<string>)
    requires aux <= pos < |s| && IsDelimiter(s[pos])
    requires forall i :: aux <= i < pos ==> !IsDelimiter(s[i])
    requires before == Flush(s[aux..pos])
    requires glyph == if s[pos] == ' ' then [] else [[s[pos]]]
    requires Concat(rest) == NoSpaces(s[pos + 1..])
    ensures Concat(before + glyph + rest) == NoSpaces(s[aux..])
  {
    ConcatAppend(before + glyph, rest);
    ConcatAppend(before, glyph);
    NoSpacesSplit(s, aux, pos);
    ConcatSingle(before, s[aux..pos]);
    ConcatSingle(glyph, [s[pos]]);
  }

  /** Gluing at most one lexeme back gives that lexeme or nothing. */
  lemma ConcatSingle(ws: seq<string>, w: string)
    requires ws == [] || ws == [w]
    ensures Concat(ws) == if ws == [] then [] else w
  {
    if ws != [] {
      assert ws[1..] == [];
    }
  }

  /** Dropping the spaces of a stretch without delimiters followed by one
      delimiter and the rest of the input. */
  lemma NoSpacesSplit(s: string, aux: nat, pos: nat)
    requires aux <= pos < |s|
    requires forall i :: aux <= i < pos ==> !IsDelimiter(s[i])
    ensures NoSpaces(s[aux..]) == s[aux..pos] + (if s[pos] != ' ' then [s[pos]] else []) + NoSpaces(s[pos + 1..])
  {
    var a, b := s[aux..pos], [s[pos]] + s[pos + 1..];
    assert s[aux..] == a + b;
    NoSpacesAppend(a, b);
    NoDelimiterNoSpaces(a);
    assert b[1..] == s[pos + 1..];
  }

  lemma ConcatAppend(a: seq<string>, b: seq<string>)
    ensures Concat(a + b) == Concat(a) + Concat(b)
  {
    if a == [] {
      assert a + b == b;
    } else {
      assert (a + b)[0] == a[0] && (a + b)[1..] == a[1..] + b;
      ConcatAppend(a[1..], b);
    }
  }

  lemma NoSpacesAppend(a: string, b: string)
    ensures NoSpaces(a + b) == NoSpaces(a) + NoSpaces(b)
  {
    if a == [] {
      assert a + b == b;
    } else {
      assert (a + b)[0] == a[0] && (a + b)[1..] == a[1..] + b;
      NoSpacesAppend(a[1..], b);
    }
  }

  lemma NoDelimiterNoSpaces(a: string)
    requires forall i :: 0 <= i < |a| ==> !IsDelimiter(a[i])
    ensures NoSpaces(a) == a
  {
    if a != [] {
      assert a[0] != ' ';
      NoDelimiterNoSpaces(a[1..]);
    }
  }

  /** A reference scanner that reads one character at a time: `cur` holds
      the run since the last delimiter; a delimiter closes that run, if any,
      and stands as a lexeme of its own unless it is a space. */
  function Scan(s: string, cur: string): (ws: seq<string>)
    decreases |s|
  {
    if s == [] then Flush(cur)
    else if IsDelimiter(s[0]) then Flush(cur) + (if s[0] == ' ' then [] else [[s[0]]]) + Scan(s[1..], [])
    else Scan(s[1..], cur + [s[0]])
  }

  /** The scanner carries a stretch without delimiters over into its run. */
  lemma {:induction false} ScanRun(a: string, b: string, cur: string)
    requires forall i :: 0 <= i < |a| ==> !IsDelimiter(a[i])
    ensures Scan(a + b, cur) == Scan(b, cur + a)
    decreases |a|
  {
    if a == [] {
      assert a + b == b && cur + a == cur;
    } else {
      assert (a + b)[0] == a[0] && (a + b)[1..] == a[1..] + b;
      ScanRun(a[1..], b, cur + [a[0]]);
      assert cur + [a[0]] + a[1..] == cur + a;
    }
  }

  /** The segmentation loop cuts exactly where the reference scanner does:
      every literal is a maximal run between delimiters, and every
      delimiter other than a space is a lexeme of its own. */
  lemma {:induction false} SegmentScan(s: string, aux: nat)
    requires aux <= |s|
    ensures Segment(s, aux) == Scan(s[aux..], [])
    decreases |s| - aux
  {
    if aux < |s| {
      match FindDelimiter(s, aux)
      case None =>
        SegmentLast(s, aux);
        ScanNoDelimiter(s[aux..]);
      case Some(pos) =>
        SegmentCut(s, aux, pos);
        SegmentScan(s, pos + 1);
        ScanDelimiter(s, aux, pos);
    }
  }

  /** One turn of the segmentation loop with no delimiter left. */
  lemma SegmentLast(s: string, aux: nat)
    requires aux < |s| && FindDelimiter(s, aux).None?
    ensures Segment(s, aux) == [s[aux..]]
  {
  }

  /** One turn of the segmentation loop that meets a delimiter at `pos`. */
  lemma SegmentCut(s: string, aux: nat, pos: nat)
    requires aux < |s| && FindDelimiter(s, aux) == Some(pos)
    ensures Segment(s, aux) == Flush(s[aux..pos]) + (if s[pos] == ' ' then [] else [[s[pos]]]) + Segment(s, pos + 1)
  {
    var before := Flush(s[aux..pos]);
    var glyph := if s[pos] == ' ' then [] else [[s[pos]]];
    var rest := Segment(s, pos + 1);
    assert Segment(s, aux) == before + glyph + rest;
  }

  /** With no delimiter, the scanner keeps the whole input as one run. */
  lemma ScanNoDelimiter(a: string)
    requires a != [] && forall i :: 0 <= i < |a| ==> !IsDelimiter(a[i])
    ensures Scan(a, []) == [a]
  {
    ScanRun(a, [], []);
    assert a + [] == a && [] + a == a;
  }

  /** The scanner from `aux` up to and over the first delimiter at `pos`. */
  lemma ScanDelimiter(s: string, aux: nat, pos: nat)
    requires aux <= pos < |s| && IsDelimiter(s[pos])
    requires forall i :: aux <= i < pos ==> !IsDelimiter(s[i])
    ensures Scan(s[aux..], []) == Flush(s[aux..pos]) + (if s[pos] == ' ' then [] else [[s[pos]]]) + Scan(s[pos + 1..], [])
  {
    var a, b := s[aux..pos], s[pos..];
    assert s[aux..] == a + b;
    ScanRun(a, b, []);
    assert [] + a == a;
    assert b[0] == s[pos] && b[1..] == s[pos + 1..];
  }

  /** A space between two digits separates two literals. */
  lemma ScanSpaceSplits()
    ensures Scan("1 2", []) == ["1", "2"]
  {
    var e: string := [];
    assert "1 2"[0] == '1' && "1 2"[1..] == " 2" && e + ['1'] == "1";
    assert Scan("1 2", e) == Scan(" 2", "1");
    assert " 2"[0] == ' ' && " 2"[1..] == "2";
    assert Scan(" 2", "1") == ["1"] + Scan("2", e);
    assert "2"[0] == '2' && "2"[1..] == e && e + ['2'] == "2";
    assert Scan("2", e) == Scan(e, "2") == ["2"];
  }

  /** Without a delimiter, a run of digits stays one literal. */
  lemma ScanRunKept()
    ensures Scan("12", []) == ["12"]
  {
    var e: string := [];
    assert !IsDelimiter("12"[0]) && !IsDelimiter("12"[1]);
    ScanRun("12", e, e);
    assert "12" + e == "12" && e + "12" == "12";
  }

  /** The classification loop (Compilador.cpp:214-220): a lexeme made only
      of digits and dots becomes `num` and its text joins the value list. */
  function Classify(ws: seq<string>): (r: (seq<Token>, seq<string>))
    requires forall k :: 0 <= k < |ws| ==> Classifiable(ws[k])
    ensures |r.0| == |ws|
    ensures forall k :: 0 <= k < |ws| ==> (r.0[k] == Num <==> AllNumChars(ws[k]))
    ensures forall k :: 0 <= k < |ws| && r.0[k] != Num ==> Text(r.0[k]) == ws[k]
    ensures CountNum(r.0) == |r.1|
    ensures forall k :: 0 <= k < |r.1| ==> |r.1[k]| > 0 && AllNumChars(r.1[k])
  {
    if ws == [] then ([], [])
    else
      var rest := Classify(ws[1..]);
      var t := TokenOf(ws[0]);
      var vs := if t == Num then [ws[0]] + rest.1 else rest.1;
      ClassifyCons(ws, t, rest, vs);
      ([t] + rest.0, vs)
  }

  lemma ClassifyCons(ws: seq<string>, t: Token, rest: (seq<Token>, seq<string>), vs: seq<string>)
    requires |ws| > 0
    requires t == Num <==> AllNumChars(ws[0])
    requires t != Num ==> Text(t) == ws[0]
    requires |ws[0]| > 0
    requires vs == if t == Num then [ws[0]] + rest.1 else rest.1
    requires |rest.0| == |ws| - 1
    requires forall k :: 0 <= k < |ws| - 1 ==> (rest.0[k] == Num <==> AllNumChars(ws[k + 1]))
    requires forall k :: 0 <= k < |ws| - 1 && rest.0[k] != Num ==> Text(rest.0[k]) == ws[k + 1]
    requires CountNum(rest.0) == |rest.1|
    requires forall k :: 0 <= k < |rest.1| ==> |rest.1[k]| > 0 && AllNumChars(rest.1[k])
    ensures var r := ([t] + rest.0, vs);
      && (forall k :: 0 <= k < |ws| ==> (r.0[k] == Num <==> AllNumChars(ws[k])))
      && (forall k :: 0 <= k < |ws| && r.0[k] != Num ==> Text(r.0[k]) == ws[k])
      && CountNum(r.0) == |r.1|
      && (forall k :: 0 <= k < |r.1| ==> |r.1[k]| > 0 && AllNumChars(r.1[k]))
  {
    assert ([t] + rest.0)[1..] == rest.0;
  }

  /** The token one lexeme becomes. */
  function TokenOf(w: string): (t: Token)
    requires Classifiable(w)
    ensures t == Num <==> AllNumChars(w)
    ensures t != Num ==> Text(t) == w
  {
    if AllNumChars(w) then Num
    else
      assert w == [w[0]];
      GlyphToken(w[0])
  }

  /** Put every value back in place of its `num` marker and every other
      token back as its glyph. */
  function Render(ts: seq<Token>, vs: seq<string>): seq<string>
    requires CountNum(ts) == |vs|
  {
    if ts == [] then []
    else if ts[0] == Num then
      assert ts == [ts[0]] + ts[1..];
      [vs[0]] + Render(ts[1..], vs[1..])
    else
      assert ts == [ts[0]] + ts[1..];
      [Text(ts[0])] + Render(ts[1..], vs)
  }

  /** Classification loses nothing: rendering its output gives the lexemes
      back, so the values appear in the order of their lexemes. */
  lemma {:induction false} RenderClassify(ws: seq<string>)
    requires forall k :: 0 <= k < |ws| ==> Classifiable(ws[k])
    ensures Render(Classify(ws).0, Classify(ws).1) == ws
  {
    if ws != [] {
      RenderClassify(ws[1..]);
      var rest := Classify(ws[1..]);
      var r := Classify(ws);
      if AllNumChars(ws[0]) {
        assert r.0[1..] == rest.0 && r.1[1..] == rest.1;
      } else {
        assert r.0[1..] == rest.0;
      }
    }
  }

  datatype Lexed = Lexed(tokens: seq<Token>, values: seq<string>)

  /** `lexer`. The first character outside the accepted set (spaces aside)
      is reported; otherwise the tokens and the literal texts come out with
      one value per `num`, and putting the values back in place gives the
      input without its spaces. */
  function Lex(s: string): (r: Result<Lexed>)
    ensures r.Failure? <==> exists i :: 0 <= i < |s| && !IsInputChar(s[i])
    ensures r.Failure? ==> exists i :: 0 <= i < |s| && !IsInputChar(s[i]) && r.error == InvalidCharacter(s[i])
                                       && forall k :: 0 <= k < i ==> IsInputChar(s[k])
    ensures r.Success? ==> CountNum(r.value.tokens) == |r.value.values|
    ensures r.Success? ==> forall k :: 0 <= k < |r.value.values| ==> |r.value.values[k]| > 0 && AllNumChars(r.value.values[k])
    ensures r.Success? ==> Concat(Render(r.value.tokens, r.value.values)) == NoSpaces(s)
  {
    match FirstInvalid(s, 0)
    case Some(i) => Failure(InvalidCharacter(s[i]))
    case None =>
      var ws := Segment(s, 0);
      assert s[0..] == s;
      LexemesClassifiable(s, ws);
      var c := Classify(ws);
      RenderClassify(ws);
      Success(Lexed(c.0, c.1))
  }

  /** Putting the values back in place of their markers gives exactly the
      lexemes of the reference scanner, so each literal is a maximal run of
      the input between delimiters. */
  lemma LexScan(s: string)
    requires Lex(s).Success?
    ensures Render(Lex(s).value.tokens, Lex(s).value.values) == Scan(s, [])
  {
    assert s[0..] == s;
    SegmentScan(s, 0);
    var ws := Segment(s, 0);
    LexemesClassifiable(s, ws);
    RenderClassify(ws);
  }

  /** Once the input is valid, a lexeme that is not a glyph contains only
      digits and dots. */
  lemma LexemesClassifiable(s: string, ws: seq<string>)
    requires forall i :: 0 <= i < |s| ==> IsInputChar(s[i])
    requires forall k :: 0 <= k < |ws| ==> IsLexeme(ws[k])
    requires Concat(ws) == NoSpaces(s)
    ensures forall k :: 0 <= k < |ws| ==> Classifiable(ws[k])
  {
    forall k | 0 <= k < |ws|
      ensures Classifiable(ws[k])
    {
      if !(|ws[k]| == 1 && IsGlyph(ws[k][0])) {
        forall j | 0 <= j < |ws[k]|
          ensures IsNumChar(ws[k][j])
        {
          ConcatMember(ws, k, j);
          NoSpacesMember(s, ws[k][j]);
        }
      }
    }
  }

  lemma ConcatMember(ws: seq<string>, k: nat, j: nat)
    requires k < |ws| && j < |ws[k]|
    ensures ws[k][j] in Concat(ws)
  {
    if k > 0 {
      ConcatMember(ws[1..], k - 1, j);
    }
  }

  lemma NoSpacesMember(s: string, c: char)
    requires c in NoSpaces(s)
    ensures c in s
  {
    if s != [] && c !in (if s[0] == ' ' then [] else [s[0]]) {
      NoSpacesMember(s[1..], c);
    }
  }

  /** Each glyph of the input becomes its own one-character token, in
      order, and no token stands for a space: the non-`num` tokens spell
      out exactly the glyphs of the input. */
  lemma {:induction false} LexGlyphs(s: string)
    requires Lex(s).Success?
    ensures GlyphText(Lex(s).value.tokens) == GlyphsOf(s)
  {
    var r := Lex(s).value;
    assert s[0..] == s;
    var ws := Segment(s, 0);
    LexemesClassifiable(s, ws);
    RenderClassify(ws);
    GlyphsRender(r.tokens, r.values);
    GlyphsNoSpaces(s);
  }

  /** The non-`num` tokens, as text. */
  function GlyphText(ts: seq<Token>): string {
    if ts == [] then [] else (if ts[0] == Num then [] else Text(ts[0])) + GlyphText(ts[1..])
  }

  /** The glyph characters of a string, in order. */
  function GlyphsOf(s: string): string {
    if s == [] then [] else (if IsGlyph(s[0]) then [s[0]] else []) + GlyphsOf(s[1..])
  }

  lemma {:induction false} GlyphsOfAppend(a: string, b: string)
    ensures GlyphsOf(a + b) == GlyphsOf(a) + GlyphsOf(b)
  {
    if a == [] {
      assert a + b == b;
    } else {
      var c := a + b;
      var h := if IsGlyph(a[0]) then [a[0]] else [];
      assert c[0] == a[0] && c[1..] == a[1..] + b;
      GlyphsOfAppend(a[1..], b);
      assert GlyphsOf(c) == h + (GlyphsOf(a[1..]) + GlyphsOf(b));
      assert GlyphsOf(a) == h + GlyphsOf(a[1..]);
    }
  }

  lemma GlyphsOfNumChars(w: string)
    requires AllNumChars(w)
    ensures GlyphsOf(w) == []
  {
    if w != [] {
      assert IsNumChar(w[0]);
      GlyphsOfNumChars(w[1..]);
    }
  }

  lemma GlyphsRender(ts: seq<Token>, vs: seq<string>)
    requires CountNum(ts) == |vs|
    requires forall k :: 0 <= k < |vs| ==> AllNumChars(vs[k])
    ensures GlyphsOf(Concat(Render(ts, vs))) == GlyphText(ts)
  {
    if ts != [] {
      assert ts == [ts[0]] + ts[1..];
      var rs := Render(ts, vs);
      if ts[0] == Num {
        GlyphsRender(ts[1..], vs[1..]);
        assert rs[1..] == Render(ts[1..], vs[1..]);
        GlyphsOfAppend(vs[0], Concat(rs[1..]));
        GlyphsOfNumChars(vs[0]);
      } else {
        GlyphsRender(ts[1..], vs);
        assert rs[1..] == Render(ts[1..], vs);
        GlyphsOfAppend(Text(ts[0]), Concat(rs[1..]));
        var c := Text(ts[0]);
        assert c[1..] == [];
      }
    }
  }

  lemma GlyphsNoSpaces(s: string)
    ensures GlyphsOf(NoSpaces(s)) == GlyphsOf(s)
  {
    if s != [] {
      NoSpacesAppend([s[0]], s[1..]);
      assert s == [s[0]] + s[1..];
      GlyphsOfAppend(if s[0] == ' ' then [] else [s[0]], NoSpaces(s[1..]));
    }
  }
}
