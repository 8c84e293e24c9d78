/** String primitives that the command assembly relies on, with the semantics
    of the Python built-ins it calls: str.split(), str.isdigit(), int(),
    str(int), the `in` substring test and str.replace(). */
module Text {

  datatype Option<T> = None | Some(value: T)

  // ---------------------------------------------------------------------
  // Whitespace splitting (str.split() with no separator)
  // ---------------------------------------------------------------------

  /** The characters Python's str.isspace() accepts, which str.split() and
      str.strip() treat as separators. */
  predicate IsSpace(c: char) {
    c == ' ' || ('\t' <= c <= '\r') || ('\U{1c}' <= c <= '\U{1f}')
    || c == '\U{85}' || c == '\U{a0}' || c == '\U{1680}'
    || ('\U{2000}' <= c <= '\U{200a}') || c == '\U{2028}' || c == '\U{2029}'
    || c == '\U{202f}' || c == '\U{205f}' || c == '\U{3000}'
  }

  predicate NoSpace(w: string) {
    forall i :: 0 <= i < |w| ==> !IsSpace(w[i])
  }

  /** Length of the leading run of non-whitespace characters. */
  function WordLength(s: string): (n: nat)
    ensures n <= |s|
    ensures NoSpace(s[..n])
    ensures n < |s| ==> IsSpace(s[n])
  {
    if s == [] || IsSpace(s[0]) then 0 else 1 + WordLength(s[1..])
  }

  /** str.split(): the maximal runs of non-whitespace characters, in order. */
  function Split(s: string): (words: seq<string>)
    ensures forall k :: 0 <= k < |words| ==> words[k] != [] && NoSpace(words[k])
    decreases |s|
  {
    if s == [] then []
    else if IsSpace(s[0]) then Split(s[1..])
    else
      var n := WordLength(s);
      [s[..n]] + Split(s[n..])
  }

  function Concat(ws: seq<string>): string {
    if ws == [] then [] else ws[0] + Concat(ws[1..])
  }

  /** The characters of `s` that are not whitespace, in order. */
  function DropSpaces(s: string): (r: string)
    ensures NoSpace(r)
  {
    if s == [] then []
    else (if IsSpace(s[0]) then [] else [s[0]]) + DropSpaces(s[1..])
  }

  /** Words joined by single spaces: what a user types as a track list. */
  function Unwords(ws: seq<string>): string {
    if ws == [] then []
    else if |ws| == 1 then ws[0]
    else ws[0] + " " + Unwords(ws[1..])
  }

  lemma {:induction false} DropSpacesOfWord(w: string, rest: string)
    requires NoSpace(w)
    ensures DropSpaces(w + rest) == w + DropSpaces(rest)
    decreases |w|
  {
    if w != [] {
      assert (w + rest)[1..] == w[1..] + rest;
      DropSpacesOfWord(w[1..], rest);
    } else {
      assert w + rest == rest;
    }
  }

  /** Splitting loses nothing but whitespace: the words, put back together,
      are exactly the non-whitespace characters of the input. */
  lemma {:induction false} SplitKeepsEveryOtherChar(s: string)
    ensures Concat(Split(s)) == DropSpaces(s)
    decreases |s|
  {
    if s == [] {
    } else if IsSpace(s[0]) {
      SplitKeepsEveryOtherChar(s[1..]);
    } else {
      var n := WordLength(s);
      SplitKeepsEveryOtherChar(s[n..]);
      assert s == s[..n] + s[n..];
      DropSpacesOfWord(s[..n], s[n..]);
      assert Concat(Split(s)) == s[..n] + Concat(Split(s[n..]));
    }
  }

  lemma {:induction false} WordLengthOfWord(w: string, rest: string)
    requires NoSpace(w)
    requires rest == [] || IsSpace(rest[0])
    ensures WordLength(w + rest) == |w|
    decreases |w|
  {
    if w != [] {
      assert (w + rest)[1..] == w[1..] + rest;
      WordLengthOfWord(w[1..], rest);
    } else {
      assert w + rest == rest;
    }
  }

  /** Splitting inverts joining with single spaces, for words that are
      non-empty and free of whitespace. */
  lemma {:induction false} SplitUnwords(ws: seq<string>)
    requires forall k :: 0 <= k < |ws| ==> ws[k] != [] && NoSpace(ws[k])
    ensures Split(Unwords(ws)) == ws
    decreases |ws|
  {
    if |ws| == 1 {
      WordLengthOfWord(ws[0], []);
      assert ws[0] + [] == ws[0];
      assert Unwords(ws)[|ws[0]|..] == [];
    } else if |ws| > 1 {
      var s := Unwords(ws);
      var tail := " " + Unwords(ws[1..]);
      assert s == ws[0] + tail;
      WordLengthOfWord(ws[0], tail);
      assert s[..|ws[0]|] == ws[0];
      assert s[|ws[0]|..] == tail;
      assert Split(tail) == Split(Unwords(ws[1..]));
      SplitUnwords(ws[1..]);
      assert ws == [ws[0]] + ws[1..];
    }
  }

  predicate AllSpace(g: string) {
    forall i :: 0 <= i < |g| ==> IsSpace(g[i])
  }

  /** Words with whitespace runs around them: `gaps[0]` before the first
      word, `gaps[k]` between word k-1 and word k, the last gap after the
      last word. */
  function Interleave(ws: seq<string>, gaps: seq<string>): string
    requires |gaps| == |ws| + 1
  {
    if ws == [] then gaps[0] else gaps[0] + ws[0] + Interleave(ws[1..], gaps[1..])
  }

  /** Non-empty whitespace-free words separated by non-empty whitespace
      runs, with any whitespace (or none) before and after. */
  predicate SpacedWords(ws: seq<string>, gaps: seq<string>) {
    && |gaps| == |ws| + 1
    && (forall k :: 0 <= k < |ws| ==> ws[k] != [] && NoSpace(ws[k]))
    && (forall k :: 0 <= k < |gaps| ==> AllSpace(gaps[k]))
    && (forall k :: 0 < k < |ws| ==> gaps[k] != [])
  }

  lemma {:induction false} SplitAfterSpaces(g: string, rest: string)
    requires AllSpace(g)
    ensures Split(g + rest) == Split(rest)
    decreases |g|
  {
    if g != [] {
      assert (g + rest)[1..] == g[1..] + rest;
      SplitAfterSpaces(g[1..], rest);
    } else {
      assert g + rest == rest;
    }
  }

  lemma SplitWordThen(w: string, rest: string)
    requires w != [] && NoSpace(w)
    requires rest == [] || IsSpace(rest[0])
    ensures Split(w + rest) == [w] + Split(rest)
  {
    var t := w + rest;
    WordLengthOfWord(w, rest);
    assert t[..|w|] == w && t[|w|..] == rest;
    assert !IsSpace(t[0]);
  }

  lemma SpacedCons(w: string, ws: seq<string>, g: string, gaps: seq<string>)
    requires w != [] && NoSpace(w) && AllSpace(g)
    requires SpacedWords(ws, gaps)
    requires ws != [] ==> gaps[0] != []
    ensures SpacedWords([w] + ws, [g] + gaps)
  {
    var ws' := [w] + ws;
    var gaps' := [g] + gaps;
    forall k | 0 <= k < |ws'| ensures ws'[k] != [] && NoSpace(ws'[k]) {
      if k > 0 { assert ws'[k] == ws[k - 1]; }
    }
    forall k | 0 <= k < |gaps'| ensures AllSpace(gaps'[k]) {
      if k > 0 { assert gaps'[k] == gaps[k - 1]; }
    }
    forall k | 0 < k < |ws'| ensures gaps'[k] != [] {
      assert gaps'[k] == gaps[k - 1];
    }
  }

  lemma SpacedTail(ws: seq<string>, gaps: seq<string>)
    requires SpacedWords(ws, gaps) && ws != []
    ensures SpacedWords(ws[1..], gaps[1..])
    ensures var rest := Interleave(ws[1..], gaps[1..]); rest == [] || IsSpace(rest[0])
  {
    forall k | 0 < k < |ws[1..]| ensures gaps[1..][k] != [] {
      assert gaps[1..][k] == gaps[k + 1];
    }
    if |ws| > 1 {
      var rest := Interleave(ws[1..], gaps[1..]);
      assert rest[..|gaps[1]|] == gaps[1];
      assert IsSpace(gaps[1][0]);
    }
  }

  /** str.split() returns exactly the words of any text made of words and
      whitespace runs: the words are the maximal whitespace-free runs. */
  lemma {:induction false} SplitSpacedWords(ws: seq<string>, gaps: seq<string>)
    requires SpacedWords(ws, gaps)
    ensures Split(Interleave(ws, gaps)) == ws
    decreases |ws|
  {
    if ws == [] {
      SplitAfterSpaces(gaps[0], []);
      assert gaps[0] + [] == gaps[0];
    } else {
      var rest := Interleave(ws[1..], gaps[1..]);
      SpacedTail(ws, gaps);
      SplitSpacedWords(ws[1..], gaps[1..]);
      SplitSpacesThenWord(gaps[0], ws[0], rest);
      assert ws == [ws[0]] + ws[1..];
    }
  }

  function SpaceLength(s: string): (n: nat)
    ensures n <= |s|
    ensures AllSpace(s[..n])
    ensures n < |s| ==> !IsSpace(s[n])
  {
    if s == [] || !IsSpace(s[0]) then 0 else 1 + SpaceLength(s[1..])
  }

  /** The whitespace runs of a text, in the shape SpacedWords describes. */
  function Gaps(s: string): (gaps: seq<string>)
    ensures gaps != [] && gaps[0] == s[..SpaceLength(s)]
    decreases |s|
  {
    var g := SpaceLength(s);
    if g == |s| then [s]
    else
      var n := WordLength(s[g..]);
      [s[..g]] + Gaps(s[g + n..])
  }

  lemma GapsStep(s: string, g: nat, n: nat)
    requires g == SpaceLength(s) < |s| && n == WordLength(s[g..])
    ensures Gaps(s) == [s[..g]] + Gaps(s[g + n..])
  {
  }

  lemma WordStep(s: string, g: nat, n: nat)
    requires g == SpaceLength(s) < |s| && n == WordLength(s[g..])
    ensures 0 < n && g + n <= |s|
    ensures NoSpace(s[g..g + n])
    ensures g + n < |s| ==> IsSpace(s[g + n])
  {
    var t := s[g..];
    assert t[0] == s[g];
    assert t[..n] == s[g..g + n];
  }

  lemma SplitSpacesThenWord(g: string, w: string, u: string)
    requires AllSpace(g) && w != [] && NoSpace(w)
    requires u == [] || IsSpace(u[0])
    ensures Split(g + w + u) == [w] + Split(u)
  {
    assert g + w + u == g + (w + u);
    SplitAfterSpaces(g, w + u);
    SplitWordThen(w, u);
  }

  lemma ThreeParts(s: string, i: nat, j: nat)
    requires i <= j <= |s|
    ensures s == s[..i] + s[i..j] + s[j..]
  {
  }

  lemma SplitStepWords(s: string, g: nat, n: nat)
    requires g == SpaceLength(s) < |s| && n == WordLength(s[g..])
    ensures Split(s) == [s[g..g + n]] + Split(s[g + n..])
  {
    WordStep(s, g, n);
    var w, u := s[g..g + n], s[g + n..];
    ThreeParts(s, g, g + n);
    SplitSpacesThenWord(s[..g], w, u);
  }

  /** One step of both decompositions: a whitespace run, a word, the rest. */
  lemma SplitStep(s: string, g: nat, n: nat)
    requires g == SpaceLength(s) < |s| && n == WordLength(s[g..])
    ensures 0 < n && g + n <= |s| && NoSpace(s[g..g + n])
    ensures Split(s) == [s[g..g + n]] + Split(s[g + n..])
    ensures Gaps(s) == [s[..g]] + Gaps(s[g + n..])
    ensures g + n < |s| ==> IsSpace(s[g + n])
  {
    WordStep(s, g, n);
    SplitStepWords(s, g, n);
    GapsStep(s, g, n);
  }

  lemma AllSpaces(s: string)
    requires SpaceLength(s) == |s|
    ensures Split(s) == [] && Gaps(s) == [s] && AllSpace(s)
  {
    var spaces := s[..SpaceLength(s)];
    assert spaces == s;
    SplitAfterSpaces(spaces, []);
    assert spaces + [] == s;
  }

  lemma SpacesLead(u: string)
    requires u != [] && IsSpace(u[0])
    ensures Gaps(u)[0] != []
  {
    assert SpaceLength(u) > 0;
  }

  lemma {:induction false} SplitGapsSpaced(s: string)
    ensures SpacedWords(Split(s), Gaps(s))
    decreases |s|
  {
    var g := SpaceLength(s);
    if g < |s| {
      var n := WordLength(s[g..]);
      SplitStep(s, g, n);
      var u := s[g + n..];
      SplitGapsSpaced(u);
      if Split(u) != [] {
        SpacesLead(u);
      }
      SpacedCons(s[g..g + n], Split(u), s[..g], Gaps(u));
    } else {
      AllSpaces(s);
    }
  }

  lemma {:induction false} SplitGapsInterleave(s: string)
    ensures |Gaps(s)| == |Split(s)| + 1
    ensures Interleave(Split(s), Gaps(s)) == s
    decreases |s|
  {
    var g := SpaceLength(s);
    if g < |s| {
      var n := WordLength(s[g..]);
      SplitStep(s, g, n);
      var u := s[g + n..];
      SplitGapsInterleave(u);
      var ws, gaps := Split(s), Gaps(s);
      assert ws[1..] == Split(u) && gaps[1..] == Gaps(u);
      ThreeParts(s, g, g + n);
    } else {
      AllSpaces(s);
    }
  }

  /** Every text is words and whitespace runs, with str.split()'s words:
      together with SplitSpacedWords, the words Split returns are the only
      ones that decompose the text this way. */
  lemma SplitDecomposes(s: string)
    ensures SpacedWords(Split(s), Gaps(s))
    ensures Interleave(Split(s), Gaps(s)) == s
  {
    SplitGapsSpaced(s);
    SplitGapsInterleave(s);
  }

  // ---------------------------------------------------------------------
  // Decimal digits, str.isdigit(), str(int) and int()
  // ---------------------------------------------------------------------

  predicate IsDigit(c: char) {
    '0' <= c <= '9'
  }

  predicate AllDigits(s: string) {
    forall i :: 0 <= i < |s| ==> IsDigit(s[i])
  }

  /** str.isdigit(), restricted to ASCII digits: non-empty and all digits. */
  predicate IsDigits(s: string) {
    |s| > 0 && AllDigits(s)
  }

  function DigitValue(c: char): nat
    requires IsDigit(c)
  {
    c as int - '0' as int
  }

  function DigitChar(d: nat): (c: char)
    requires d < 10
    ensures IsDigit(c) && DigitValue(c) == d
  {
    (d + '0' as int) as char
  }

  /** The number a string of decimal digits denotes (leading zeros allowed). */
  function DigitsValue(s: string): nat
    requires AllDigits(s)
  {
    if s == [] then 0 else DigitsValue(s[..|s| - 1]) * 10 + DigitValue(s[|s| - 1])
  }

  /** str(n) for a non-negative integer: its decimal digits, without leading
      zeros, read back as n. */
  function NatToString(n: nat): (r: string)
    ensures IsDigits(r)
    ensures DigitsValue(r) == n
    ensures r[0] == '0' ==> r == "0"
  {
    if n < 10 then [DigitChar(n)]
    else
      var r := NatToString(n / 10) + [DigitChar(n % 10)];
      assert r[..|r| - 1] == NatToString(n / 10);
      r
  }


  /** A digit string with single underscores between digits, which Python's
      int() accepts as a decimal literal. */
  predicate IsGroupedDigits(s: string) {
    |s| > 0 && IsDigit(s[0]) && IsDigit(s[|s| - 1]) && DigitsOrUnderscores(s)
    && forall i :: 0 <= i < |s| - 1 && s[i] == '_' ==> IsDigit(s[i + 1])
  }

  predicate DigitsOrUnderscores(s: string) {
    forall i :: 0 <= i < |s| ==> IsDigit(s[i]) || s[i] == '_'
  }

  function WithoutUnderscores(s: string): (r: string)
    ensures DigitsOrUnderscores(s) ==> AllDigits(r)
    ensures AllDigits(s) ==> r == s
  {
    if s == [] then []
    else (if s[0] == '_' then [] else [s[0]]) + WithoutUnderscores(s[1..])
  }

  /** Python's int() on a string that carries no surrounding whitespace:
      an optional sign, then decimal digits grouped by single underscores.
      None stands for the ValueError int() raises on anything else. */
  function ParseInt(s: string): (r: Option<int>)
    ensures IsDigits(s) ==> r == Some(DigitsValue(s))
    ensures r.Some? ==> |s| > 0 && (IsDigit(s[0]) || s[0] == '+' || s[0] == '-')
    ensures r.Some? && r.value < 0 ==> s[0] == '-'
    ensures r.Some? ==> forall i :: 1 <= i < |s| ==> IsDigit(s[i]) || s[i] == '_'
    ensures |s| > 1 && s[0] == '-' && IsDigits(s[1..]) ==> r == Some(-(DigitsValue(s[1..]) as int))
    ensures |s| > 1 && s[0] == '+' && IsDigits(s[1..]) ==> r == Some(DigitsValue(s[1..]))
    ensures r.Some? <==> IsGroupedDigits(s) || (|s| > 0 && (s[0] == '+' || s[0] == '-') && IsGroupedDigits(s[1..]))
    ensures r.Some? ==> IsDigit(s[|s| - 1]) && forall i :: 0 <= i < |s| - 1 && s[i] == '_' ==> IsDigit(s[i + 1])
    ensures r.Some? && IsDigit(s[0]) ==> r.value == DigitsValue(WithoutUnderscores(s))
    ensures r.Some? && s[0] == '+' ==> r.value == DigitsValue(WithoutUnderscores(s[1..]))
    ensures r.Some? && s[0] == '-' ==> r.value == -(DigitsValue(WithoutUnderscores(s[1..])) as int)
  {
    if |s| > 0 && (s[0] == '+' || s[0] == '-') then
      var body := s[1..];
      if IsGroupedDigits(body) then
        var magnitude: int := DigitsValue(WithoutUnderscores(body));
        Some(if s[0] == '-' then -magnitude else magnitude)
      else None
    else if IsGroupedDigits(s) then
      Some(DigitsValue(WithoutUnderscores(s)))
    else None
  }

  /** int(str(n)) == n. */
  lemma ParseIntOfNatToString(n: nat)
    ensures ParseInt(NatToString(n)) == Some(n)
  {
  }

  /** str(i) for any integer. */
  function IntToString(i: int): string {
    if i < 0 then "-" + NatToString(-i) else NatToString(i)
  }

  /** int(str(i)) == i, for negative integers too. */
  lemma ParseIntOfIntToString(i: int)
    ensures ParseInt(IntToString(i)) == Some(i)
  {
    if i < 0 {
      var r := IntToString(i);
      assert r[1..] == NatToString(-i);
    }
  }

  /** Underscores group digits: one between two digits is dropped, and
      doubled, trailing or leading ones are refused, as is a lone sign. */
  lemma ParseIntUnderscores()
    ensures ParseInt("1_0") == Some(10)
    ensures ParseInt("-1_0") == Some(-10)
    ensures ParseInt("1__0") == None
    ensures ParseInt("1_") == None
    ensures ParseInt("_1") == None
    ensures ParseInt("+") == None
  {
    var ten := "1_0";
    assert IsGroupedDigits(ten);
    var digits := WithoutUnderscores(ten);
    assert digits == "10";
    var one := digits[..1];
    assert one == "1" && one[..0] == [];
    assert DigitsValue(one) == 1;
    assert DigitsValue(digits) == 10;
    assert ("-1_0")[1..] == ten;
    var doubled := "1__0";
    assert doubled[1] == '_' && !IsDigit(doubled[2]);
  }

  // ---------------------------------------------------------------------
  // Substrings: prefix test, `p in s` and str.replace()
  // ---------------------------------------------------------------------

  predicate StartsWith(s: string, p: string) {
    |p| <= |s| && s[..|p|] == p
  }

  /** A prefix test is a test of the first characters and then of the
      rest. */
  lemma StartsWithFirst(s: string, p: string)
    requires s != [] && p != []
    ensures StartsWith(s, p) <==> s[0] == p[0] && StartsWith(s[1..], p[1..])
  {
    if |p| <= |s| {
      assert s[..|p|] == [s[0]] + s[1..][..|p| - 1];
      assert p == [p[0]] + p[1..];
    }
  }

  predicate EndsWith(s: string, p: string) {
    |p| <= |s| && s[|s| - |p|..] == p
  }

  lemma EndsWithSuffix(x: string, p: string)
    ensures EndsWith(x + p, p)
  {
    assert (x + p)[|x|..] == p;
  }

  lemma EndsWithAppend(x: string, y: string, p: string)
    requires EndsWith(y, p)
    ensures EndsWith(x + y, p)
  {
    assert (x + y)[|x| + |y| - |p|..] == y[|y| - |p|..];
  }

  /** Python's `p in s`. */
  predicate Contains(s: string, p: string)
    decreases |s|
  {
    StartsWith(s, p) || (|s| > 0 && Contains(s[1..], p))
  }

  /** Python's s.replace(p, r) for a non-empty p: every occurrence of p,
      found left to right without overlap, is replaced by r. */
  function ReplaceAll(s: string, p: string, r: string): string
    requires |p| > 0
    decreases |s|
  {
    if s == [] then []
    else if StartsWith(s, p) then r + ReplaceAll(s[|p|..], p, r)
    else [s[0]] + ReplaceAll(s[1..], p, r)
  }

  /** Where p does not occur, replacing it changes nothing. */
  lemma {:induction false} ReplaceAllAbsent(s: string, p: string, r: string)
    requires |p| > 0 && !Contains(s, p)
    ensures ReplaceAll(s, p, r) == s
    decreases |s|
  {
    if s != [] {
      ReplaceAllAbsent(s[1..], p, r);
    }
  }

  /** A string without the first character of p does not contain p. */
  lemma {:induction false} AbsentWithoutFirstChar(s: string, p: string)
    requires |p| > 0 && p[0] !in s
    ensures !Contains(s, p)
    decreases |s|
  {
    if s != [] {
      assert s[0] != p[0];
      assert s[1..] == s[1..] && forall c :: c in s[1..] ==> c in s;
      AbsentWithoutFirstChar(s[1..], p);
    }
  }

  /** No occurrence of p can straddle the seam of x + y when p is one
      character long, or when a character next to the seam is not in p. */
  predicate SeamSafe(x: string, y: string, p: string) {
    |p| == 1 || x == [] || y == [] || x[|x| - 1] !in p || y[0] !in p
  }

  lemma {:induction false} StraddleImpossible(x: string, y: string, p: string)
    requires |p| > 0 && SeamSafe(x, y, p) && x != [] && |p| > |x|
    ensures !StartsWith(x + y, p)
  {
    if |p| <= |x + y| {
      var w := (x + y)[..|p|];
      assert w[|x| - 1] == x[|x| - 1] && w[|x|] == y[0];
      assert x[|x| - 1] in w && y[0] in w;
    }
  }

  /** Where p fits in x, the prefix test on x + y is the one on x. */
  lemma PrefixOfConcat(x: string, y: string, p: string)
    requires |p| <= |x|
    ensures StartsWith(x + y, p) <==> StartsWith(x, p)
  {
    assert (x + y)[..|p|] == x[..|p|];
  }

  /** Dropping characters from the front of x keeps the seam. */
  lemma SeamSafeDrop(x: string, y: string, p: string, k: nat)
    requires SeamSafe(x, y, p) && k <= |x|
    ensures SeamSafe(x[k..], y, p)
    ensures (x + y)[k..] == x[k..] + y
  {
    if k < |x| {
      assert x[k..][|x[k..]| - 1] == x[|x| - 1];
    }
  }

  /** str.replace distributes over a concatenation whose seam no occurrence
      can straddle. */
  lemma {:induction false} ReplaceAllConcat(x: string, y: string, p: string, r: string)
    requires |p| > 0 && SeamSafe(x, y, p)
    ensures ReplaceAll(x + y, p, r) == ReplaceAll(x, p, r) + ReplaceAll(y, p, r)
    decreases |x|
  {
    if x == [] {
      assert x + y == y;
    } else {
      if |p| > |x| {
        StraddleImpossible(x, y, p);
      } else {
        PrefixOfConcat(x, y, p);
      }
      var k := if StartsWith(x, p) then |p| else 1;
      SeamSafeDrop(x, y, p, k);
      ReplaceAllConcat(x[k..], y, p, r);
    }
  }

  /** `p in x + y` splits the same way, under the same seam condition. */
  lemma {:induction false} ContainsConcat(x: string, y: string, p: string)
    requires |p| > 0 && SeamSafe(x, y, p)
    ensures Contains(x + y, p) <==> Contains(x, p) || Contains(y, p)
    decreases |x|
  {
    if x == [] {
      assert x + y == y;
    } else {
      SeamSafeDrop(x, y, p, 1);
      ContainsConcat(x[1..], y, p);
      if |p| > |x| {
        StraddleImpossible(x, y, p);
        assert !StartsWith(x, p);
      } else {
        PrefixOfConcat(x, y, p);
      }
    }
  }

  /** An occurrence at the very end is found. */
  lemma {:induction false} ContainsSuffix(x: string, p: string)
    ensures Contains(x + p, p)
    decreases |x|
  {
    if x == [] {
      assert (x + p)[..|p|] == p;
    } else {
      assert (x + p)[1..] == x[1..] + p;
      ContainsSuffix(x[1..], p);
    }
  }

  /** An occurrence in a prefix is still found after anything is appended. */
  lemma {:induction false} ContainsExtend(x: string, y: string, p: string)
    requires Contains(x, p)
    ensures Contains(x + y, p)
    decreases |x|
  {
    if StartsWith(x, p) {
      assert (x + y)[..|p|] == x[..|p|];
    } else {
      assert (x + y)[1..] == x[1..] + y;
      ContainsExtend(x[1..], y, p);
    }
  }

  /** A string shorter than p cannot contain it. */
  lemma {:induction false} ShortAbsent(s: string, p: string)
    requires |s| < |p|
    ensures !Contains(s, p)
    decreases |s|
  {
    if s != [] {
      ShortAbsent(s[1..], p);
    }
  }

  /** An occurrence is still found after anything is prepended. */
  lemma {:induction false} ContainsPrepend(x: string, y: string, p: string)
    requires Contains(y, p)
    ensures Contains(x + y, p)
    decreases |x|
  {
    if x != [] {
      assert (x + y)[1..] == x[1..] + y;
      ContainsPrepend(x[1..], y, p);
    } else {
      assert x + y == y;
    }
  }

  /** Replacing p by a text at least as long never shortens the string,
      and lengthens it whenever p occurs and the replacement is longer. */
  lemma {:induction false} ReplaceAllLength(s: string, p: string, r: string)
    requires |p| > 0 && |r| >= |p|
    ensures |ReplaceAll(s, p, r)| >= |s|
    ensures Contains(s, p) && |r| > |p| ==> |ReplaceAll(s, p, r)| > |s|
    decreases |s|
  {
    if s != [] {
      if StartsWith(s, p) {
        ReplaceAllLength(s[|p|..], p, r);
      } else {
        ReplaceAllLength(s[1..], p, r);
      }
    }
  }

  /** When the replacement itself contains p, an occurrence of p survives
      the replacement. */
  lemma {:induction false} ReplaceAllKeepsTarget(s: string, p: string, r: string)
    requires |p| > 0 && Contains(s, p) && Contains(r, p)
    ensures Contains(ReplaceAll(s, p, r), p)
    decreases |s|
  {
    if StartsWith(s, p) {
      ContainsExtend(r, ReplaceAll(s[|p|..], p, r), p);
    } else {
      ReplaceAllKeepsTarget(s[1..], p, r);
      ContainsPrepend([s[0]], ReplaceAll(s[1..], p, r), p);
    }
  }
}
