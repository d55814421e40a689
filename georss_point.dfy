/** The text handling behind a GeoRSS `<georss:point>`: Python's argument-less
    `str.split()` and the literal syntax `float()` accepts. */
module GeoRssPoint {

  /** The characters `str.isspace()` holds for, which `str.split()` splits on. */
  predicate IsSpace(c: char) {
    c == ' ' || ('\t' <= c <= '\r') || ('\U{1C}' <= c <= '\U{1F}') ||
    c == '\U{85}' || c == '\U{A0}' || c == '\U{1680}' || ('\U{2000}' <= c <= '\U{200A}') ||
    c == '\U{2028}' || c == '\U{2029}' || c == '\U{202F}' || c == '\U{205F}' || c == '\U{3000}'
  }

  predicate NoSpace(s: string) {
    forall i :: 0 <= i < |s| ==> !IsSpace(s[i])
  }

  /** A token `split()` can produce: non-empty and free of whitespace. */
  predicate IsWord(s: string) {
    s != [] && NoSpace(s)
  }

  /** The text with every whitespace character removed. */
  function RemoveSpaces(s: string): string {
    if s == [] then []
    else (if IsSpace(s[0]) then [] else [s[0]]) + RemoveSpaces(s[1..])
  }

  function Concat(ws: seq<string>): string {
    if ws == [] then [] else ws[0] + Concat(ws[1..])
  }

  /** Tokens separated by one blank each: how a GeoRSS point writes "lat lon". */
  function JoinWords(ws: seq<string>): string {
    if |ws| == 0 then []
    else if |ws| == 1 then ws[0]
    else ws[0] + " " + JoinWords(ws[1..])
  }

  /** Scan of `s` with `word` the token read so far. */
  function SplitFrom(s: string, word: string): (tokens: seq<string>)
    requires NoSpace(word)
    ensures forall i :: 0 <= i < |tokens| ==> IsWord(tokens[i])
    decreases |s|
  {
    if s == [] then (if word == [] then [] else [word])
    else if IsSpace(s[0]) then (if word == [] then [] else [word]) + SplitFrom(s[1..], [])
    else SplitFrom(s[1..], word + [s[0]])
  }

  /** `s.split()`: the maximal runs of non-whitespace characters, in order. */
  function Split(s: string): (tokens: seq<string>)
    ensures forall i :: 0 <= i < |tokens| ==> IsWord(tokens[i])
  {
    SplitFrom(s, [])
  }

  lemma {:induction false} ConcatSplitFrom(s: string, word: string)
    requires NoSpace(word)
    ensures Concat(SplitFrom(s, word)) == word + RemoveSpaces(s)
    decreases |s|
  {
    if s == [] {
    } else if IsSpace(s[0]) {
      ConcatSplitFrom(s[1..], []);
      ConcatAppend(if word == [] then [] else [word], SplitFrom(s[1..], []));
    } else {
      ConcatSplitFrom(s[1..], word + [s[0]]);
      assert word + [s[0]] + RemoveSpaces(s[1..]) == word + ([s[0]] + RemoveSpaces(s[1..]));
    }
  }

  lemma {:induction false} ConcatAppend(a: seq<string>, b: seq<string>)
    ensures Concat(a + b) == Concat(a) + Concat(b)
  {
    if a == [] {
      assert a + b == b;
    } else {
      assert (a + b)[1..] == a[1..] + b;
      ConcatAppend(a[1..], b);
    }
  }

  /** Splitting loses only whitespace: the tokens glued together are the text
      with its whitespace removed. */
  lemma SplitKeepsNonSpace(s: string)
    ensures Concat(Split(s)) == RemoveSpaces(s)
  {
    ConcatSplitFrom(s, []);
  }

  /** Text made only of whitespace (including the empty string) has no tokens. */
  lemma {:induction false} SplitBlank(s: string)
    requires forall i :: 0 <= i < |s| ==> IsSpace(s[i])
    ensures Split(s) == []
    decreases |s|
  {
    if s != [] {
      SplitBlank(s[1..]);
    }
  }

  lemma {:induction false} SplitFromWord(w: string, rest: string, word: string)
    requires NoSpace(w) && NoSpace(word)
    ensures SplitFrom(w + rest, word) == SplitFrom(rest, word + w)
    decreases |w|
  {
    if w == [] {
      assert w + rest == rest && word + w == word;
    } else {
      assert (w + rest)[1..] == w[1..] + rest;
      assert word + [w[0]] + w[1..] == word + w;
      SplitFromWord(w[1..], rest, word + [w[0]]);
    }
  }

  /** `split()` recovers tokens joined with single blanks. */
  lemma {:induction false} SplitJoinWords(ws: seq<string>)
    requires forall i :: 0 <= i < |ws| ==> IsWord(ws[i])
    ensures Split(JoinWords(ws)) == ws
    decreases |ws|
  {
    if |ws| == 1 {
      SplitFromWord(ws[0], [], []);
      assert ws[0] + [] == ws[0];
      assert [] + ws[0] == ws[0];
    } else if |ws| > 1 {
      var rest := JoinWords(ws[1..]);
      assert ws[0] + " " + rest == ws[0] + (" " + rest);
      SplitFromWord(ws[0], " " + rest, []);
      assert [] + ws[0] == ws[0];
      assert (" " + rest)[1..] == rest;
      SplitJoinWords(ws[1..]);
    }
  }

  predicate IsBlank(s: string) {
    forall i :: 0 <= i < |s| ==> IsSpace(s[i])
  }

  /** A separator between two tokens: one or more whitespace characters. */
  predicate IsGap(s: string) {
    s != [] && IsBlank(s)
  }

  /** `ws[0] + gaps[0] + ws[1] + ... + gaps[n-2] + ws[n-1]`. */
  function Interleave(ws: seq<string>, gaps: seq<string>): string
    requires |ws| == |gaps| + 1
    decreases |gaps|
  {
    if gaps == [] then ws[0] else ws[0] + gaps[0] + Interleave(ws[1..], gaps[1..])
  }

  /** Tokens with arbitrary whitespace before, between and after them. */
  function Spaced(lead: string, ws: seq<string>, gaps: seq<string>, trail: string): string
    requires (ws == [] && gaps == []) || |ws| == |gaps| + 1
  {
    lead + (if ws == [] then [] else Interleave(ws, gaps)) + trail
  }

  /** Whitespace before the next token is skipped. */
  lemma {:induction false} SplitFromBlank(g: string, rest: string)
    requires IsBlank(g)
    ensures SplitFrom(g + rest, []) == SplitFrom(rest, [])
    decreases |g|
  {
    if g == [] {
      assert g + rest == rest;
    } else {
      assert (g + rest)[1..] == g[1..] + rest;
      SplitFromBlank(g[1..], rest);
    }
  }

  /** A gap closes the token read so far. */
  lemma SplitFromGap(g: string, rest: string, word: string)
    requires IsGap(g) && IsWord(word)
    ensures SplitFrom(g + rest, word) == [word] + SplitFrom(rest, [])
  {
    assert (g + rest)[0] == g[0];
    assert (g + rest)[1..] == g[1..] + rest;
    SplitFromBlank(g[1..], rest);
  }

  /** Trailing whitespace closes the last token and adds none. */
  lemma {:induction false} SplitFromTrail(t: string, word: string)
    requires IsBlank(t) && NoSpace(word)
    ensures SplitFrom(t, word) == (if word == [] then [] else [word])
    decreases |t|
  {
    if t != [] {
      SplitFromTrail(t[1..], []);
    }
  }

  lemma {:induction false} SplitInterleave(ws: seq<string>, gaps: seq<string>, trail: string)
    requires |ws| == |gaps| + 1
    requires forall i :: 0 <= i < |ws| ==> IsWord(ws[i])
    requires forall i :: 0 <= i < |gaps| ==> IsGap(gaps[i])
    requires IsBlank(trail)
    ensures SplitFrom(Interleave(ws, gaps) + trail, []) == ws
    decreases |gaps|
  {
    if gaps == [] {
      SplitFromWord(ws[0], trail, []);
      assert [] + ws[0] == ws[0];
      SplitFromTrail(trail, ws[0]);
    } else {
      var rest := Interleave(ws[1..], gaps[1..]) + trail;
      assert Interleave(ws, gaps) + trail == ws[0] + (gaps[0] + rest);
      SplitFromWord(ws[0], gaps[0] + rest, []);
      assert [] + ws[0] == ws[0];
      SplitFromGap(gaps[0], rest, ws[0]);
      SplitInterleave(ws[1..], gaps[1..], trail);
      assert [ws[0]] + ws[1..] == ws;
    }
  }

  /** `split()` returns exactly the tokens, however much whitespace leads,
      separates or trails them: the tokens are the maximal runs of
      non-whitespace characters. */
  lemma SplitSpaced(lead: string, ws: seq<string>, gaps: seq<string>, trail: string)
    requires (ws == [] && gaps == []) || |ws| == |gaps| + 1
    requires forall i :: 0 <= i < |ws| ==> IsWord(ws[i])
    requires forall i :: 0 <= i < |gaps| ==> IsGap(gaps[i])
    requires IsBlank(lead) && IsBlank(trail)
    ensures Split(Spaced(lead, ws, gaps, trail)) == ws
  {
    if ws == [] {
      assert Spaced(lead, ws, gaps, trail) == lead + trail;
      SplitBlank(lead + trail);
    } else {
      var body := Interleave(ws, gaps) + trail;
      assert Spaced(lead, ws, gaps, trail) == lead + body;
      SplitFromBlank(lead, body);
      SplitInterleave(ws, gaps, trail);
    }
  }

  /** "1  2" splits into two tokens, not one. */
  lemma SplitDoubleBlank()
    ensures Split("1  2") == ["1", "2"]
  {
    SplitSpaced([], ["1", "2"], ["  "], []);
    assert Spaced([], ["1", "2"], ["  "], []) == "1  2";
  }

  /** The two-token case a well-formed GeoRSS point takes. */
  lemma SplitPair(lat: string, lon: string)
    requires IsWord(lat) && IsWord(lon)
    ensures Split(lat + " " + lon) == [lat, lon]
  {
    SplitJoinWords([lat, lon]);
    assert JoinWords([lat, lon]) == lat + " " + JoinWords([lon]);
  }

  // ---- float() literal syntax ----

  predicate IsDigit(c: char) { '0' <= c <= '9' }

  /** `digitpart ::= digit (["_"] digit)*` */
  predicate IsDigitPart(s: string) {
    && |s| > 0 && IsDigit(s[0]) && IsDigit(s[|s| - 1])
    && (forall i :: 0 <= i < |s| ==> IsDigit(s[i]) || s[i] == '_')
    && (forall i :: 0 <= i < |s| - 1 ==> s[i] == '_' ==> s[i + 1] != '_')
  }

  /** Index of the first occurrence of `c` or `d`, or `|s|` when there is none. */
  function FirstIndex(s: string, c: char, d: char): (k: nat)
    ensures k <= |s|
    ensures forall i :: 0 <= i < k ==> s[i] != c && s[i] != d
    ensures k < |s| ==> s[k] == c || s[k] == d
  {
    if s == [] then 0
    else if s[0] == c || s[0] == d then 0
    else 1 + FirstIndex(s[1..], c, d)
  }

  function WithoutSign(s: string): string {
    if |s| > 0 && (s[0] == '+' || s[0] == '-') then s[1..] else s
  }

  /** `digitpart "." [digitpart] | "." digitpart | digitpart` */
  predicate IsMantissa(m: string) {
    var d := FirstIndex(m, '.', '.');
    if d == |m| then IsDigitPart(m)
    else
      var whole, fraction := m[..d], m[d + 1..];
      (IsDigitPart(whole) && (fraction == [] || IsDigitPart(fraction))) ||
      (whole == [] && IsDigitPart(fraction))
  }

  predicate IsDecimal(b: string) {
    var e := FirstIndex(b, 'e', 'E');
    IsMantissa(b[..e]) && (e == |b| || IsDigitPart(WithoutSign(b[e + 1..])))
  }

  function LowerAscii(s: string): string {
    if s == [] then []
    else [if 'A' <= s[0] <= 'Z' then (s[0] as int + 32) as char else s[0]] + LowerAscii(s[1..])
  }

  predicate IsInfOrNan(b: string) {
    var l := LowerAscii(b);
    l == "inf" || l == "infinity" || l == "nan"
  }

  /** A whitespace-free token `float()` accepts (ASCII digits only). */
  predicate IsFloatText(t: string) {
    var b := WithoutSign(t);
    IsDecimal(b) || IsInfOrNan(b)
  }

  /** A coordinate as GDACS writes it is a float literal. */
  lemma FloatTextExample()
    ensures IsFloatText("12.5")
  {
    var t := "12.5";
    assert t[1..] == "2.5" && t[2..] == ".5" && t[3..] == "5" && t[4..] == [];
    assert FirstIndex(t, 'e', 'E') == 4;
    assert FirstIndex(t, '.', '.') == 2;
    assert t[..2] == "12" && t[3..] == "5";
    assert IsMantissa(t);
  }

  /** The decimal-comma form of the same coordinate is not. */
  lemma DecimalCommaRejected()
    ensures !IsFloatText("12,5")
  {
    var c := "12,5";
    assert c[1..] == "2,5" && c[2..] == ",5" && c[3..] == "5" && c[4..] == [];
    assert FirstIndex(c, 'e', 'E') == 4;
    assert FirstIndex(c, '.', '.') == 4;
    assert c[..4] == c;
    assert !IsDigitPart(c) by { assert !IsDigit(c[2]) && c[2] != '_'; }
    assert LowerAscii(c)[2] == ',' by {
      assert LowerAscii(c) == [c[0]] + LowerAscii(c[1..]);
      assert LowerAscii(c[1..]) == [c[1]] + LowerAscii(c[2..]);
      assert LowerAscii(c[2..]) == [c[2]] + LowerAscii(c[3..]);
    }
  }
}
