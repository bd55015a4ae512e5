/**
  The REPL's tokenizer `cleanInput`: trim surrounding white space, lower-case
  the line and split it into fields at runs of white space.
*/
module Input {

  /** White space as Go's `unicode.IsSpace` defines it. */
  predicate IsSpace(c: char) {
    c == '\U{9}' || c == '\U{A}' || c == '\U{B}' || c == '\U{C}' || c == '\U{D}' || c == ' '
    || c == '\U{85}' || c == '\U{A0}' || c == '\U{1680}'
    || ('\U{2000}' <= c <= '\U{200A}')
    || c == '\U{2028}' || c == '\U{2029}' || c == '\U{202F}' || c == '\U{205F}' || c == '\U{3000}'
  }

  predicate IsUpper(c: char) {
    'A' <= c <= 'Z'
  }

  predicate AllSpace(s: string) {
    forall i :: 0 <= i < |s| ==> IsSpace(s[i])
  }

  predicate NoSpace(s: string) {
    forall i :: 0 <= i < |s| ==> !IsSpace(s[i])
  }

  predicate NoUpper(s: string) {
    forall i :: 0 <= i < |s| ==> !IsUpper(s[i])
  }

  /** A field: a non-empty run of non-space characters. */
  predicate IsWord(w: string) {
    |w| > 0 && NoSpace(w)
  }

  predicate AllWords(ws: seq<string>) {
    forall i :: 0 <= i < |ws| ==> IsWord(ws[i])
  }

  predicate AllLower(ws: seq<string>) {
    forall i :: 0 <= i < |ws| ==> NoUpper(ws[i])
  }

  // ---------------------------------------------------------------------
  // strings.TrimSpace

  /** Drops the leading white space. */
  function TrimLeft(s: string): (r: string)
    ensures |r| <= |s| && r == s[|s| - |r|..]
    ensures AllSpace(s[..|s| - |r|])
    ensures r == [] || !IsSpace(r[0])
  {
    if s == [] || !IsSpace(s[0]) then s else TrimLeft(s[1..])
  }

  /** Drops the trailing white space. */
  function TrimRight(s: string): (r: string)
    ensures |r| <= |s| && r == s[..|r|]
    ensures AllSpace(s[|r|..])
    ensures r == [] || !IsSpace(r[|r| - 1])
  {
    if s == [] || !IsSpace(s[|s| - 1]) then s else TrimRight(s[..|s| - 1])
  }

  /** `strings.TrimSpace`: the infix of `s` between its leading and trailing white space. */
  function TrimSpace(s: string): (r: string)
    ensures r == [] || (!IsSpace(r[0]) && !IsSpace(r[|r| - 1]))
  {
    TrimRight(TrimLeft(s))
  }

  /** `s` is `a + TrimSpace(s) + b` for some all-space `a` and `b`. */
  lemma TrimSpaceInfix(s: string) returns (i: nat, j: nat)
    ensures i <= j <= |s| && TrimSpace(s) == s[i..j]
    ensures AllSpace(s[..i]) && AllSpace(s[j..])
  {
    var l := TrimLeft(s);
    i := |s| - |l|;
    j := i + |TrimRight(l)|;
    SliceOfSuffix(s, i, j - i);
  }

  lemma SliceOfSuffix(s: string, i: nat, k: nat)
    requires i + k <= |s|
    ensures s[i..][..k] == s[i..i + k] && s[i..][k..] == s[i + k..]
  {
  }

  // ---------------------------------------------------------------------
  // strings.ToLower (ASCII letters only)

  function LowerChar(c: char): (d: char)
    ensures !IsUpper(d)
    ensures IsSpace(d) == IsSpace(c)
    ensures !IsUpper(c) ==> d == c
  {
    if IsUpper(c) then (c as int + 32) as char else c
  }

  /** `strings.ToLower`, restricted to the ASCII letters. */
  function ToLower(s: string): (r: string)
    ensures |r| == |s|
    ensures forall i :: 0 <= i < |s| ==> r[i] == LowerChar(s[i])
  {
    if s == [] then [] else [LowerChar(s[0])] + ToLower(s[1..])
  }

  // ---------------------------------------------------------------------
  // strings.Fields

  /** The length of the maximal run of non-space characters that starts `s`. */
  function WordEnd(s: string): (n: nat)
    requires s != [] && !IsSpace(s[0])
    ensures 0 < n <= |s| && NoSpace(s[..n])
    ensures n == |s| || IsSpace(s[n])
  {
    if |s| == 1 || IsSpace(s[1]) then 1 else 1 + WordEnd(s[1..])
  }

  /** `strings.Fields`: the maximal runs of non-space characters of `s`, in order. */
  function Fields(s: string): (ws: seq<string>)
    ensures AllWords(ws)
    ensures NoUpper(s) ==> AllLower(ws)
    decreases |s|
  {
    if s == [] then []
    else if IsSpace(s[0]) then Fields(s[1..])
    else
      var n := WordEnd(s);
      [s[..n]] + Fields(s[n..])
  }

  /** `cleanInput` (main.go): trim, lower-case, split into fields. */
  function CleanInput(text: string): (words: seq<string>)
    ensures AllWords(words) && AllLower(words)
  {
    Fields(ToLower(TrimSpace(text)))
  }

  // ---------------------------------------------------------------------
  // The layout of a line: gaps of white space around its words

  /** `gaps[0] + ws[0] + gaps[1] + ws[1] + ... + ws[n-1] + gaps[n]`. */
  function Spaced(ws: seq<string>, gaps: seq<string>): string
    requires |gaps| == |ws| + 1
    decreases |ws|
  {
    if ws == [] then gaps[0] else gaps[0] + ws[0] + Spaced(ws[1..], gaps[1..])
  }

  /** Gaps made of white space, every gap between two words non-empty. */
  predicate ValidGaps(gaps: seq<string>, n: nat) {
    |gaps| == n + 1
    && (forall i :: 0 <= i < |gaps| ==> AllSpace(gaps[i]))
    && (forall i :: 0 < i < n ==> gaps[i] != [])
  }

  /** The white space around and between the fields of `s`. */
  function Gaps(s: string): (gaps: seq<string>)
    ensures |gaps| == |Fields(s)| + 1
    decreases |s|
  {
    if s == [] then [[]]
    else if IsSpace(s[0]) then
      var g := Gaps(s[1..]);
      [[s[0]] + g[0]] + g[1..]
    else
      [[]] + Gaps(s[WordEnd(s)..])
  }

  lemma SpacedStart(ws: seq<string>, gaps: seq<string>)
    requires |gaps| == |ws| + 1
    ensures |Spaced(ws, gaps)| >= |gaps[0]|
    ensures Spaced(ws, gaps)[..|gaps[0]|] == gaps[0]
    ensures ws != [] && ws[0] != [] && gaps[0] == [] ==> Spaced(ws, gaps) != [] && Spaced(ws, gaps)[0] == ws[0][0]
  {
  }

  lemma PrependToFirstGap(x: string, ws: seq<string>, gaps: seq<string>)
    requires |gaps| == |ws| + 1
    ensures x + Spaced(ws, gaps) == Spaced(ws, [x + gaps[0]] + gaps[1..])
  {
    var gaps' := [x + gaps[0]] + gaps[1..];
    assert gaps'[1..] == gaps[1..];
  }

  lemma {:induction false} AppendToLastGap(ws: seq<string>, gaps: seq<string>, y: string)
    requires |gaps| == |ws| + 1
    ensures Spaced(ws, gaps) + y == Spaced(ws, gaps[..|ws|] + [gaps[|ws|] + y])
    decreases |ws|
  {
    var gaps' := gaps[..|ws|] + [gaps[|ws|] + y];
    if ws != [] {
      AppendToLastGap(ws[1..], gaps[1..], y);
      assert gaps'[1..] == gaps[1..][..|ws| - 1] + [gaps[1..][|ws| - 1] + y];
    }
  }

  lemma {:induction false} FieldsSkipsSpace(g: string, t: string)
    requires AllSpace(g)
    ensures Fields(g + t) == Fields(t)
    decreases |g|
  {
    if g == [] {
      assert g + t == t;
    } else {
      assert (g + t)[0] == g[0] && (g + t)[1..] == g[1..] + t;
      FieldsSkipsSpace(g[1..], t);
    }
  }

  lemma FieldsTakesWord(w: string, t: string)
    requires IsWord(w) && (t == [] || IsSpace(t[0]))
    ensures Fields(w + t) == [w] + Fields(t)
  {
    var s := w + t;
    assert s[0] == w[0];
    var n := WordEnd(s);
    assert forall k :: 0 <= k < n ==> !IsSpace(s[k]) by {
      forall k | 0 <= k < n ensures !IsSpace(s[k]) { assert s[..n][k] == s[k]; }
    }
    assert forall k :: 0 <= k < |w| ==> s[k] == w[k];
    assert t != [] ==> s[|w|] == t[0];
    assert s[..n] == w && s[n..] == t;
  }

  /** Laying out words with any valid gaps and splitting again gives the words back. */
  lemma {:induction false} FieldsOfSpaced(ws: seq<string>, gaps: seq<string>)
    requires AllWords(ws) && ValidGaps(gaps, |ws|)
    ensures Fields(Spaced(ws, gaps)) == ws
    decreases |ws|
  {
    if ws == [] {
      FieldsSkipsSpace(gaps[0], []);
      assert gaps[0] + [] == gaps[0];
    } else {
      var rest := Spaced(ws[1..], gaps[1..]);
      assert Spaced(ws, gaps) == gaps[0] + (ws[0] + rest);
      FieldsSkipsSpace(gaps[0], ws[0] + rest);
      SpacedStart(ws[1..], gaps[1..]);
      if |ws| > 1 {
        assert gaps[1] != [];
        assert rest[0] == gaps[1][0];
      } else {
        assert rest == gaps[1];
      }
      FieldsTakesWord(ws[0], rest);
      FieldsOfSpaced(ws[1..], gaps[1..]);
    }
  }

  /** Every line is its fields laid out with valid gaps. */
  lemma {:induction false} SpacedFields(s: string)
    ensures ValidGaps(Gaps(s), |Fields(s)|)
    ensures Spaced(Fields(s), Gaps(s)) == s
    decreases |s|
  {
    if s == [] {
    } else if IsSpace(s[0]) {
      SpacedFields(s[1..]);
      SpacedFieldsLeadingSpace(s);
    } else {
      SpacedFields(s[WordEnd(s)..]);
      SpacedFieldsLeadingWord(s);
    }
  }

  lemma SpacedFieldsLeadingSpace(s: string)
    requires s != [] && IsSpace(s[0])
    requires ValidGaps(Gaps(s[1..]), |Fields(s[1..])|) && Spaced(Fields(s[1..]), Gaps(s[1..])) == s[1..]
    ensures ValidGaps(Gaps(s), |Fields(s)|)
    ensures Spaced(Fields(s), Gaps(s)) == s
  {
    var g := Gaps(s[1..]);
    assert Fields(s) == Fields(s[1..]);
    assert Gaps(s) == [[s[0]] + g[0]] + g[1..];
    PrependToFirstGap([s[0]], Fields(s[1..]), g);
    PrependGapValid([s[0]], g, |Fields(s[1..])|);
    SplitThree(s, 0, 1);
    assert s[..0] == [] && s[0..1] == [s[0]];
  }

  lemma PrependGapValid(x: string, g: seq<string>, n: nat)
    requires AllSpace(x) && ValidGaps(g, n)
    ensures ValidGaps([x + g[0]] + g[1..], n)
  {
    var gaps := [x + g[0]] + g[1..];
    forall i | 0 <= i < |gaps| ensures AllSpace(gaps[i]) {
      if i > 0 { assert gaps[i] == g[i]; }
    }
    forall i | 0 < i < n ensures gaps[i] != [] {
      assert gaps[i] == g[i];
    }
  }

  lemma SpacedFieldsLeadingWord(s: string)
    requires s != [] && !IsSpace(s[0])
    requires var rest := s[WordEnd(s)..];
      ValidGaps(Gaps(rest), |Fields(rest)|) && Spaced(Fields(rest), Gaps(rest)) == rest
    ensures ValidGaps(Gaps(s), |Fields(s)|)
    ensures Spaced(Fields(s), Gaps(s)) == s
  {
    var n := WordEnd(s);
    var rest := s[n..];
    var f, g := Fields(rest), Gaps(rest);
    assert Fields(s) == [s[..n]] + f;
    assert Gaps(s) == [[]] + g;
    WordThenSpaced(s[..n], rest, f, g);
    SplitThree(s, n, |s|);
    assert s[n..|s|] == rest && s[|s|..] == [];
  }

  lemma WordThenSpaced(w: string, rest: string, f: seq<string>, g: seq<string>)
    requires IsWord(w) && (rest == [] || IsSpace(rest[0]))
    requires AllWords(f) && ValidGaps(g, |f|) && Spaced(f, g) == rest
    ensures ValidGaps([[]] + g, |[w] + f|)
    ensures Spaced([w] + f, [[]] + g) == w + rest
  {
    assert ([w] + f)[1..] == f && ([[]] + g)[1..] == g;
    assert Spaced([w] + f, [[]] + g) == [] + w + rest;
    SpacedStart(f, g);
    var gaps := [[]] + g;
    forall i | 0 < i < |f| + 1 ensures gaps[i] != [] {
      assert gaps[i] == g[i - 1];
    }
    forall i | 0 < i < |gaps| ensures AllSpace(gaps[i]) {
      assert gaps[i] == g[i - 1];
    }
  }

  /** Surrounding white space does not change the fields. */
  lemma FieldsIgnoresOuterSpace(a: string, t: string, b: string)
    requires AllSpace(a) && AllSpace(b)
    ensures Fields(a + t + b) == Fields(t)
  {
    SpacedFields(t);
    var f, g := Fields(t), Gaps(t);
    AppendToLastGap(f, g, b);
    var g' := g[..|f|] + [g[|f|] + b];
    assert ValidGaps(g', |f|) by {
      forall i | 0 <= i < |g'| ensures AllSpace(g'[i]) {
        if i < |f| { assert g'[i] == g[i]; }
      }
    }
    FieldsOfSpaced(f, g');
    assert a + t + b == a + (t + b);
    FieldsSkipsSpace(a, t + b);
  }

  /** Trimming before lower-casing and splitting is redundant. */
  lemma CleanInputIsFieldsOfLower(text: string)
    ensures CleanInput(text) == Fields(ToLower(text))
  {
    var i, j := TrimSpaceInfix(text);
    var l := ToLower(text);
    LowerOuterSpace(text, i, j);
    var a, t, b := l[..i], l[i..j], l[j..];
    SplitThree(l, i, j);
    FieldsIgnoresOuterSpace(a, t, b);
    assert Fields(l) == Fields(t);
    assert CleanInput(text) == Fields(ToLower(text[i..j]));
  }

  lemma SplitThree(s: string, i: nat, j: nat)
    requires i <= j <= |s|
    ensures s == s[..i] + s[i..j] + s[j..]
  {
  }

  lemma LowerOuterSpace(text: string, i: nat, j: nat)
    requires i <= j <= |text| && AllSpace(text[..i]) && AllSpace(text[j..])
    ensures AllSpace(ToLower(text)[..i]) && AllSpace(ToLower(text)[j..])
    ensures ToLower(text[i..j]) == ToLower(text)[i..j]
  {
    var l := ToLower(text);
    forall k | 0 <= k < i ensures IsSpace(l[..i][k]) {
      assert text[..i][k] == text[k];
    }
    forall k | 0 <= k < |text| - j ensures IsSpace(l[j..][k]) {
      assert text[j..][k] == text[j + k];
    }
  }

  lemma ToLowerOfNoUpper(s: string)
    requires NoUpper(s)
    ensures ToLower(s) == s
  {
  }

  lemma {:induction false} SpacedNoUpper(ws: seq<string>, gaps: seq<string>)
    requires |gaps| == |ws| + 1 && AllLower(ws)
    requires forall i :: 0 <= i < |gaps| ==> AllSpace(gaps[i])
    ensures NoUpper(Spaced(ws, gaps))
    decreases |ws|
  {
    if ws != [] {
      SpacedNoUpper(ws[1..], gaps[1..]);
      var rest := Spaced(ws[1..], gaps[1..]);
      var s := gaps[0] + ws[0] + rest;
      forall k | 0 <= k < |s| ensures !IsUpper(s[k]) {
        if k < |gaps[0]| {
          assert s[k] == gaps[0][k];
        } else if k < |gaps[0]| + |ws[0]| {
          assert s[k] == ws[0][k - |gaps[0]|];
        } else {
          assert s[k] == rest[k - |gaps[0]| - |ws[0]|];
        }
      }
    }
  }

  /** The gaps of `strings.Join(ws, " ")`: one space between words, none outside. */
  function JoinGaps(n: nat): (gaps: seq<string>)
    ensures ValidGaps(gaps, n)
  {
    seq(n + 1, i requires 0 <= i <= n => if 0 < i < n then " " else "")
  }

  /** `strings.Join(ws, " ")`. */
  function Join(ws: seq<string>): string {
    Spaced(ws, JoinGaps(|ws|))
  }

  /** Lower-case words laid out with any valid gaps are tokenized back to themselves. */
  lemma CleanInputOfSpaced(ws: seq<string>, gaps: seq<string>)
    requires AllWords(ws) && AllLower(ws) && ValidGaps(gaps, |ws|)
    ensures CleanInput(Spaced(ws, gaps)) == ws
  {
    var s := Spaced(ws, gaps);
    CleanInputIsFieldsOfLower(s);
    SpacedNoUpper(ws, gaps);
    ToLowerOfNoUpper(s);
    FieldsOfSpaced(ws, gaps);
  }

  /** Tokenizing is idempotent: the words re-joined by single spaces tokenize to themselves. */
  lemma CleanInputIdempotent(text: string)
    ensures CleanInput(Join(CleanInput(text))) == CleanInput(text)
  {
    var ws := CleanInput(text);
    CleanInputOfSpaced(ws, JoinGaps(|ws|));
  }

  /** Every line is its tokens laid out, after lower-casing, with gaps of white space:
      the tokens are exactly the maximal non-space runs, in the order they occur. */
  lemma CleanInputLayout(text: string)
    ensures ValidGaps(Gaps(ToLower(text)), |CleanInput(text)|)
    ensures ToLower(text) == Spaced(CleanInput(text), Gaps(ToLower(text)))
  {
    CleanInputIsFieldsOfLower(text);
    SpacedFields(ToLower(text));
  }

  /** A line of white space only has no tokens. */
  lemma CleanInputOfBlank(text: string)
    requires AllSpace(text)
    ensures CleanInput(text) == []
  {
    CleanInputIsFieldsOfLower(text);
    var l := ToLower(text);
    assert AllSpace(l) by {
      forall k | 0 <= k < |l| ensures IsSpace(l[k]) {
        assert l[k] == LowerChar(text[k]);
      }
    }
    FieldsSkipsSpace(l, []);
    assert l + [] == l;
  }

  /** The words of `ws`, each lower-cased. */
  function LowerAll(ws: seq<string>): (r: seq<string>)
    ensures |r| == |ws| && AllLower(r)
    ensures AllWords(ws) ==> AllWords(r)
  {
    if ws == [] then [] else [ToLower(ws[0])] + LowerAll(ws[1..])
  }

  lemma {:induction false} ToLowerConcat(a: string, b: string)
    ensures ToLower(a + b) == ToLower(a) + ToLower(b)
  {
    assert forall k :: 0 <= k < |b| ==> (a + b)[|a| + k] == b[k];
  }

  lemma {:induction false} ToLowerSpaced(ws: seq<string>, gaps: seq<string>)
    requires |gaps| == |ws| + 1 && forall i :: 0 <= i < |gaps| ==> AllSpace(gaps[i])
    ensures ToLower(Spaced(ws, gaps)) == Spaced(LowerAll(ws), gaps)
    decreases |ws|
  {
    ToLowerOfNoUpper(gaps[0]);
    if ws != [] {
      var rest := Spaced(ws[1..], gaps[1..]);
      ToLowerConcat(gaps[0] + ws[0], rest);
      ToLowerConcat(gaps[0], ws[0]);
      ToLowerSpaced(ws[1..], gaps[1..]);
      assert LowerAll(ws)[1..] == LowerAll(ws[1..]);
    }
  }

  /** Words of any case laid out with any valid gaps tokenize to the same words, lower-cased:
      "Charmander Bulbasaur PIKACHU" gives "charmander", "bulbasaur", "pikachu". */
  lemma CleanInputLowersWords(ws: seq<string>, gaps: seq<string>)
    requires AllWords(ws) && ValidGaps(gaps, |ws|)
    ensures CleanInput(Spaced(ws, gaps)) == LowerAll(ws)
  {
    var s := Spaced(ws, gaps);
    CleanInputIsFieldsOfLower(s);
    ToLowerSpaced(ws, gaps);
    FieldsOfSpaced(LowerAll(ws), gaps);
  }
}

/** The table of cases the tokenizer's test pins down. */
module InputCases {
  import opened Input

  lemma HelloWorld()
    ensures CleanInput("  hello  world  ") == ["hello", "world"]
  {
    assert "  hello  world  " == Spaced(["hello", "world"], ["  ", "  ", "  "]);
    CleanInputOfSpaced(["hello", "world"], ["  ", "  ", "  "]);
  }

  lemma Blank()
    ensures CleanInput("") == [] && CleanInput("   ") == []
  {
    CleanInputOfBlank("");
    CleanInputOfBlank("   ");
  }
}
