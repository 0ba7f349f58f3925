/** String operations the translator relies on, modelled on the Java library
    calls it makes: `String.trim`, `split("//", 2)`, `split("\\s+")`,
    `Integer.parseInt` and the decimal rendering of `int` in string
    concatenation. */
module Text {
  import opened Results

  // ---------------------------------------------------------------------
  // Character classes
  // ---------------------------------------------------------------------

  /** The regular-expression class `\s`: space, tab, line feed, vertical tab,
      form feed and carriage return. */
  predicate IsSpace(c: char) {
    c == ' ' || c == '\t' || c == '\n' || c == '\U{000B}' || c == '\U{000C}' || c == '\r'
  }

  /** A character `String.trim` removes: any code point up to U+0020. */
  predicate IsBlank(c: char) {
    c <= ' '
  }

  predicate IsDigit(c: char) {
    '0' <= c <= '9'
  }

  predicate AllDigits(s: string) {
    forall k :: 0 <= k < |s| ==> IsDigit(s[k])
  }

  predicate SpaceFree(s: string) {
    forall k :: 0 <= k < |s| ==> !IsSpace(s[k])
  }

  // ---------------------------------------------------------------------
  // String.trim
  // ---------------------------------------------------------------------

  /** Number of blanks at the start of `s`. */
  function LeadingBlanks(s: string): (n: nat)
    ensures n <= |s|
    ensures forall k :: 0 <= k < n ==> IsBlank(s[k])
    ensures n == |s| || !IsBlank(s[n])
  {
    if |s| > 0 && IsBlank(s[0]) then 1 + LeadingBlanks(s[1..]) else 0
  }

  /** Index where the run of blanks at the end of `s` begins. */
  function TrailingStart(s: string): (n: nat)
    ensures n <= |s|
    ensures forall k :: n <= k < |s| ==> IsBlank(s[k])
    ensures n == 0 || !IsBlank(s[n - 1])
  {
    if |s| > 0 && IsBlank(s[|s| - 1]) then TrailingStart(s[..|s| - 1]) else |s|
  }

  predicate AllBlank(s: string) {
    forall k :: 0 <= k < |s| ==> IsBlank(s[k])
  }

  /** `String.trim`: `s` without its leading and trailing blanks; empty when
      `s` is blank throughout. */
  function Trim(s: string): (r: string)
    ensures r == [] <==> AllBlank(s)
    ensures r != [] ==> LeadingBlanks(s) < TrailingStart(s) && r == s[LeadingBlanks(s)..TrailingStart(s)]
    ensures r == [] || (!IsBlank(r[0]) && !IsBlank(r[|r| - 1]))
  {
    var i := LeadingBlanks(s);
    if i == |s| then []
    else
      var j := TrailingStart(s);
      assert !IsBlank(s[i]);
      s[i..j]
  }

  /** A string that already has no blank at either end is its own trim. */
  lemma TrimOfTrimmed(s: string)
    requires s == [] || (!IsBlank(s[0]) && !IsBlank(s[|s| - 1]))
    ensures Trim(s) == s
  {
  }

  // ---------------------------------------------------------------------
  // split("//", 2)[0]
  // ---------------------------------------------------------------------

  /** The comment marker `//` starts at position `i` of `s`. */
  predicate CommentAt(s: string, i: int) {
    0 <= i && i + 1 < |s| && s[i] == '/' && s[i + 1] == '/'
  }

  predicate NoComment(s: string) {
    forall i :: 0 <= i < |s| ==> !CommentAt(s, i)
  }

  /** `s.split("//", 2)[0]`: the prefix of `s` before the first `//`, or all
      of `s` when the marker does not occur. */
  function BeforeComment(s: string): (r: string)
    ensures |r| <= |s| && r == s[..|r|]
    ensures forall i :: 0 <= i < |r| ==> !CommentAt(s, i)
    ensures |r| == |s| || CommentAt(s, |r|)
  {
    if |s| < 2 then s
    else if s[0] == '/' && s[1] == '/' then ""
    else
      var rest := BeforeComment(s[1..]);
      assert forall i :: 1 <= i <= |rest| ==> (CommentAt(s, i) <==> CommentAt(s[1..], i - 1));
      [s[0]] + rest
  }

  /** The prefix before the first marker contains no marker itself. */
  lemma BeforeCommentHasNoComment(s: string)
    ensures NoComment(BeforeComment(s))
  {
    var r := BeforeComment(s);
    forall i | 0 <= i < |r|
      ensures !CommentAt(r, i)
    {
      assert !CommentAt(s, i);
    }
  }

  /** A string without a marker is left whole. */
  lemma BeforeCommentOfPlain(s: string)
    requires NoComment(s)
    ensures BeforeComment(s) == s
  {
  }

  /** Trimming cannot create a comment marker. */
  lemma TrimKeepsNoComment(s: string)
    requires NoComment(s)
    ensures NoComment(Trim(s))
  {
    var r := Trim(s);
    if r != [] {
      var i := LeadingBlanks(s);
      forall k | 0 <= k < |r|
        ensures !CommentAt(r, k)
      {
        assert !CommentAt(s, i + k);
      }
    }
  }

  // ---------------------------------------------------------------------
  // split("\\s+") on a string that does not start with whitespace
  // ---------------------------------------------------------------------

  /** Length of the longest whitespace-free prefix. */
  function WordLength(s: string): (n: nat)
    ensures n <= |s|
    ensures forall k :: 0 <= k < n ==> !IsSpace(s[k])
    ensures n == |s| || IsSpace(s[n])
  {
    if s == [] || IsSpace(s[0]) then 0 else 1 + WordLength(s[1..])
  }

  /** The maximal whitespace-free runs of `s`, in order. For a string that
      neither starts nor ends with whitespace this is exactly what Java's
      `s.split("\\s+")` returns. */
  function Tokens(s: string): (ts: seq<string>)
    ensures forall k :: 0 <= k < |ts| ==> ts[k] != [] && SpaceFree(ts[k])
    ensures s != [] && !IsSpace(s[0]) ==> |ts| > 0 && ts[0] == s[..WordLength(s)]
    decreases |s|
  {
    if s == [] then []
    else if IsSpace(s[0]) then Tokens(s[1..])
    else
      var n := WordLength(s);
      [s[..n]] + Tokens(s[n..])
  }

  /** Length of the whitespace run at the start of `s`. */
  function SpaceLength(s: string): (n: nat)
    ensures n <= |s|
    ensures forall k :: 0 <= k < n ==> IsSpace(s[k])
    ensures n == |s| || !IsSpace(s[n])
  {
    if s == [] || !IsSpace(s[0]) then 0 else 1 + SpaceLength(s[1..])
  }

  /** A separator `split("\\s+")` removes: a non-empty run of whitespace. */
  predicate IsGap(g: string) {
    g != [] && forall k :: 0 <= k < |g| ==> IsSpace(g[k])
  }

  predicate AllWords(ts: seq<string>) {
    forall k :: 0 <= k < |ts| ==> ts[k] != [] && SpaceFree(ts[k])
  }

  predicate AllGaps(gaps: seq<string>) {
    forall k :: 0 <= k < |gaps| ==> IsGap(gaps[k])
  }

  /** The words `ts` with `gaps[k]` between `ts[k]` and `ts[k + 1]`. */
  function JoinWith(ts: seq<string>, gaps: seq<string>): string
    requires |ts| > 0 && |gaps| == |ts| - 1
    decreases |ts|
  {
    if |ts| == 1 then ts[0] else ts[0] + gaps[0] + JoinWith(ts[1..], gaps[1..])
  }

  /** The separators between the tokens of `s`, in order. */
  function Gaps(s: string): seq<string>
    requires s != [] && !IsSpace(s[0]) && !IsSpace(s[|s| - 1])
    decreases |s|
  {
    var n := WordLength(s);
    if n == |s| then []
    else
      var t := s[n..];
      var m := SpaceLength(t);
      assert t[|t| - 1] == s[|s| - 1];
      [t[..m]] + Gaps(t[m..])
  }

  lemma WordLengthOfWord(w: string, t: string)
    requires SpaceFree(w)
    requires t == [] || IsSpace(t[0])
    ensures WordLength(w + t) == |w|
  {
    if w != [] {
      assert (w + t)[1..] == w[1..] + t;
      WordLengthOfWord(w[1..], t);
    }
  }

  lemma TokensOfWord(w: string)
    requires w != [] && SpaceFree(w)
    ensures Tokens(w) == [w]
  {
    WordLengthOfWord(w, []);
    assert w + [] == w;
    assert w[|w|..] == [];
  }

  /** A word followed by whitespace (or nothing) is the first token. */
  lemma TokensOfWordThen(w: string, t: string)
    requires w != [] && SpaceFree(w)
    requires t == [] || IsSpace(t[0])
    ensures Tokens(w + t) == [w] + Tokens(t)
  {
    var s := w + t;
    WordLengthOfWord(w, t);
    assert s[..|w|] == w;
    assert s[|w|..] == t;
  }

  /** Leading whitespace yields no token. */
  lemma {:induction false} TokensAfterSpaces(g: string, r: string)
    requires forall k :: 0 <= k < |g| ==> IsSpace(g[k])
    ensures Tokens(g + r) == Tokens(r)
  {
    if g == [] {
      assert g + r == r;
    } else {
      assert (g + r)[0] == g[0];
      assert (g + r)[1..] == g[1..] + r;
      TokensAfterSpaces(g[1..], r);
    }
  }

  /** Splitting undoes joining: non-empty whitespace-free words separated by
      any non-empty whitespace runs tokenize back to the words. */
  lemma {:induction false} TokensOfJoinWith(ts: seq<string>, gaps: seq<string>)
    requires |ts| > 0 && |gaps| == |ts| - 1
    requires AllWords(ts) && AllGaps(gaps)
    ensures Tokens(JoinWith(ts, gaps)) == ts
  {
    if |ts| == 1 {
      TokensOfWord(ts[0]);
    } else {
      var rest := JoinWith(ts[1..], gaps[1..]);
      assert JoinWith(ts, gaps) == ts[0] + (gaps[0] + rest);
      assert IsGap(gaps[0]);
      TokensOfWordThen(ts[0], gaps[0] + rest);
      TokensAfterSpaces(gaps[0], rest);
      assert AllWords(ts[1..]) by {
        forall k | 0 <= k < |ts| - 1 ensures ts[1..][k] != [] && SpaceFree(ts[1..][k]) {
          assert ts[1..][k] == ts[k + 1];
        }
      }
      assert AllGaps(gaps[1..]) by {
        forall k | 0 <= k < |gaps| - 1 ensures IsGap(gaps[1..][k]) {
          assert gaps[1..][k] == gaps[k + 1];
        }
      }
      TokensOfJoinWith(ts[1..], gaps[1..]);
      assert ts == [ts[0]] + ts[1..];
    }
  }

  lemma JoinWithCons(w: string, g: string, ts: seq<string>, gs: seq<string>)
    requires |ts| > 0 && |gs| == |ts| - 1
    ensures JoinWith([w] + ts, [g] + gs) == w + g + JoinWith(ts, gs)
  {
    assert ([w] + ts)[1..] == ts;
    assert ([g] + gs)[1..] == gs;
  }

  /** After the first word of a string that ends with a non-space comes a
      gap and then a non-empty rest that starts and ends with a non-space. */
  lemma GapAfterWord(s: string, n: nat, t: string, m: nat)
    requires s != [] && !IsSpace(s[|s| - 1])
    requires n == WordLength(s) < |s| && t == s[n..] && m == SpaceLength(t)
    ensures 0 < m < |t| && !IsSpace(t[m]) && !IsSpace(t[|t| - 1]) && IsGap(t[..m])
  {
    assert t[|t| - 1] == s[|s| - 1];
  }

  lemma SplitThree(s: string, n: nat, m: nat)
    requires n <= |s| && m <= |s| - n
    ensures s == s[..n] + s[n..][..m] + s[n..][m..]
  {
    var t := s[n..];
    assert t == t[..m] + t[m..];
    assert s == s[..n] + t;
  }

  lemma TokensStep(s: string, n: nat, t: string, m: nat)
    requires s != [] && !IsSpace(s[0])
    requires n == WordLength(s) && t == s[n..] && m == SpaceLength(t)
    ensures Tokens(s) == [s[..n]] + Tokens(t[m..])
  {
    assert t == t[..m] + t[m..];
    TokensAfterSpaces(t[..m], t[m..]);
  }

  /** Joining undoes splitting: a string that neither starts nor ends with
      whitespace is its tokens separated by its gaps. */
  lemma {:induction false} TokensRejoin(s: string)
    requires s != [] && !IsSpace(s[0]) && !IsSpace(s[|s| - 1])
    ensures |Tokens(s)| > 0 && |Gaps(s)| == |Tokens(s)| - 1 && AllGaps(Gaps(s))
    ensures JoinWith(Tokens(s), Gaps(s)) == s
    decreases |s|
  {
    var n := WordLength(s);
    if n == |s| {
      assert s[..n] == s && s[n..] == [];
      assert Tokens(s) == [s];
    } else {
      var t := s[n..];
      var m := SpaceLength(t);
      GapAfterWord(s, n, t, m);
      SplitThree(s, n, m);
      TokensStep(s, n, t, m);
      var r := t[m..];
      assert Gaps(s) == [t[..m]] + Gaps(r);
      TokensRejoin(r);
      JoinWithCons(s[..n], t[..m], Tokens(r), Gaps(r));
      var gs := Gaps(s);
      forall k | 0 <= k < |gs| ensures IsGap(gs[k]) {
        if k > 0 { assert gs[k] == Gaps(r)[k - 1]; }
      }
    }
  }

  // ---------------------------------------------------------------------
  // Decimal integers
  // ---------------------------------------------------------------------

  /** Integer.MAX_VALUE: the largest value `Integer.parseInt` accepts. */
  const MaxInt: nat := 0x7FFF_FFFF

  function DigitChar(d: nat): (c: char)
    requires d < 10
    ensures IsDigit(c) && c as int - '0' as int == d
  {
    ('0' as int + d) as char
  }

  /** Decimal rendering of a non-negative `int`, as string concatenation
      produces it: no sign, no leading zeros. */
  function NatToString(n: nat): (s: string)
    ensures s != [] && AllDigits(s)
    ensures s[0] == '0' ==> n == 0
  {
    if n < 10 then [DigitChar(n)] else NatToString(n / 10) + [DigitChar(n % 10)]
  }

  /** The value of a string of decimal digits. */
  function DigitsValue(s: string): nat
    requires AllDigits(s)
  {
    if s == [] then 0 else DigitsValue(s[..|s| - 1]) * 10 + (s[|s| - 1] as int - '0' as int)
  }

  lemma {:induction false} DigitsValueOfNatToString(n: nat)
    ensures DigitsValue(NatToString(n)) == n
  {
    if n >= 10 {
      var s := NatToString(n);
      assert s[..|s| - 1] == NatToString(n / 10);
      DigitsValueOfNatToString(n / 10);
    }
  }

  /** Distinct numbers render to distinct strings. */
  lemma NatToStringInjective(i: nat, j: nat)
    requires NatToString(i) == NatToString(j)
    ensures i == j
  {
    DigitsValueOfNatToString(i);
    DigitsValueOfNatToString(j);
  }

  /** `Integer.parseInt` restricted to unsigned decimal strings: a non-empty
      run of ASCII digits whose value fits in an `int`; anything else is a
      NumberFormatException. */
  function ParseInt(s: string): (r: Result<nat>)
    ensures r.Ok? <==> s != [] && AllDigits(s) && DigitsValue(s) <= MaxInt
    ensures r.Ok? ==> r.value == DigitsValue(s) && r.value <= MaxInt
    ensures r.Err? ==> r.error == NumberFormat(s)
  {
    if s != [] && AllDigits(s) && DigitsValue(s) <= MaxInt then Ok(DigitsValue(s))
    else Err(NumberFormat(s))
  }

  /** Parsing undoes rendering for every value an `int` can hold. */
  lemma ParseIntOfNatToString(n: nat)
    requires n <= MaxInt
    ensures ParseInt(NatToString(n)) == Ok(n)
  {
    DigitsValueOfNatToString(n);
  }
}
