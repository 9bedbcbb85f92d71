/**
 * The string primitives the shell relies on, written out: Python's
 * `str.split()` (whitespace runs), `str.isdigit()`, `int(...)`, `str(int)`,
 * `sub in s`, `s.startswith(p)` and `s.split(".")[-1]`.
 */
module Text {

  /** The characters Python's `str.isspace` (and so `str.split()`) treats as whitespace. */
  predicate IsWhitespace(c: char) {
    var n := c as int;
    (9 <= n <= 13) || (28 <= n <= 32) || n == 0x85 || n == 0xA0 || n == 0x1680
    || (0x2000 <= n <= 0x200A) || n == 0x2028 || n == 0x2029 || n == 0x202F
    || n == 0x205F || n == 0x3000
  }

  predicate NoWhitespace(s: string) {
    forall i :: 0 <= i < |s| ==> !IsWhitespace(s[i])
  }

  predicate AllWhitespace(s: string) {
    forall i :: 0 <= i < |s| ==> IsWhitespace(s[i])
  }

  predicate IsDigitChar(c: char) {
    '0' <= c <= '9'
  }

  /** `s.isdigit()`: non-empty and made of decimal digits only. */
  predicate IsDigits(s: string) {
    |s| > 0 && forall i :: 0 <= i < |s| ==> IsDigitChar(s[i])
  }

  function DigitOf(c: char): nat
    requires IsDigitChar(c)
  {
    c as int - '0' as int
  }

  /** `int(s)` for a digit string (leading zeros allowed). */
  function DigitsValue(s: string): nat
    requires forall i :: 0 <= i < |s| ==> IsDigitChar(s[i])
  {
    if s == [] then 0
    else DigitsValue(s[..|s| - 1]) * 10 + DigitOf(s[|s| - 1])
  }

  /** `str(n)` for a non-negative integer. */
  function NatToDigits(n: nat): (r: string)
    ensures IsDigits(r)
    ensures |r| > 1 ==> r[0] != '0'
  {
    if n < 10 then [('0' as int + n) as char]
    else NatToDigits(n / 10) + [('0' as int + n % 10) as char]
  }

  /** Reading back what `str` wrote gives the number again. */
  lemma {:induction false} DigitsRoundTrip(n: nat)
    ensures DigitsValue(NatToDigits(n)) == n
  {
    if n >= 10 {
      var d := NatToDigits(n / 10);
      DigitsRoundTrip(n / 10);
      var r := d + [('0' as int + n % 10) as char];
      assert r[..|r| - 1] == d;
    }
  }

  predicate StartsWith(s: string, prefix: string) {
    |prefix| <= |s| && s[..|prefix|] == prefix
  }

  /** Python's `sub in s`: `sub` occurs at some offset of `s`; the empty string occurs everywhere. */
  predicate Contains(s: string, sub: string) {
    exists i :: 0 <= i <= |s| - |sub| && OccursAt(s, sub, i)
  }

  predicate OccursAt(s: string, sub: string, i: int) {
    0 <= i <= |s| - |sub| && s[i..i + |sub|] == sub
  }

  /** The number of leading whitespace characters. */
  function LeadingWhitespace(s: string): (n: nat)
    ensures n <= |s|
    ensures forall i :: 0 <= i < n ==> IsWhitespace(s[i])
    ensures n == |s| || !IsWhitespace(s[n])
  {
    if s != [] && IsWhitespace(s[0]) then
      var n := LeadingWhitespace(s[1..]);
      assert forall i :: 0 < i < |s| ==> s[i] == s[1..][i - 1];
      n + 1
    else 0
  }

  /** The length of the longest prefix holding no whitespace. */
  function WordLength(s: string): (n: nat)
    ensures n <= |s|
    ensures forall i :: 0 <= i < n ==> !IsWhitespace(s[i])
    ensures n == |s| || IsWhitespace(s[n])
  {
    if s == [] || IsWhitespace(s[0]) then 0
    else
      var n := WordLength(s[1..]);
      assert forall i :: 0 < i < |s| ==> s[i] == s[1..][i - 1];
      n + 1
  }

  /** A non-empty run without whitespace: what `str.split()` returns pieces of. */
  predicate IsToken(w: string) {
    w != [] && NoWhitespace(w)
  }

  predicate Tokens(ws: seq<string>) {
    forall k :: 0 <= k < |ws| ==> IsToken(ws[k])
  }

  /** Python's `s.split()`: the maximal whitespace-free runs of `s`, in order. */
  function Split(s: string): (r: seq<string>)
    ensures Tokens(r)
    decreases |s|
  {
    var t := s[LeadingWhitespace(s)..];
    if t == [] then []
    else
      var n := WordLength(t);
      assert n > 0 by { assert t[0] == s[LeadingWhitespace(s)]; }
      var w := t[..n];
      var rest := Split(t[n..]);
      TokensCons(w, rest);
      [w] + rest
  }

  lemma TokensCons(w: string, rest: seq<string>)
    requires IsToken(w) && Tokens(rest)
    ensures Tokens([w] + rest)
  {
    assert forall k :: 0 < k <= |rest| ==> ([w] + rest)[k] == rest[k - 1];
  }

  /** `s.split()` is empty exactly when `s` is all whitespace. */
  lemma SplitEmptyIff(s: string)
    ensures Split(s) == [] <==> AllWhitespace(s)
  {
    var n := LeadingWhitespace(s);
    if n < |s| {
      assert s[n..][0] == s[n];
    }
  }

  /** Tokens joined with single spaces: the inverse of `Split` on well-formed tokens. */
  function JoinSpaced(ws: seq<string>): string {
    if ws == [] then ""
    else if |ws| == 1 then ws[0]
    else ws[0] + " " + JoinSpaced(ws[1..])
  }

  lemma {:induction false} WordLengthOfToken(w: string, rest: string)
    requires NoWhitespace(w)
    requires rest == [] || IsWhitespace(rest[0])
    ensures WordLength(w + rest) == |w|
    decreases |w|
  {
    if w != [] {
      assert (w + rest)[1..] == w[1..] + rest;
      WordLengthOfToken(w[1..], rest);
    } else {
      assert w + rest == rest;
    }
  }

  lemma SplitSkipsWhitespace(c: char, s: string)
    requires IsWhitespace(c)
    ensures Split([c] + s) == Split(s)
  {
    var cs := [c] + s;
    assert cs[1..] == s;
    assert LeadingWhitespace(cs) == LeadingWhitespace(s) + 1;
    assert cs[LeadingWhitespace(cs)..] == s[LeadingWhitespace(s)..];
  }

  lemma SplitSkipsSpace(s: string)
    ensures Split(" " + s) == Split(s)
  {
    var c := ' ';
    assert IsWhitespace(c);
    assert " " + s == [c] + s;
    SplitSkipsWhitespace(c, s);
  }

  /** A leading token is split off whole when whitespace (or nothing) follows it. */
  lemma SplitLeadingToken(w: string, rest: string)
    requires w != [] && NoWhitespace(w)
    requires rest == [] || IsWhitespace(rest[0])
    ensures Split(w + rest) == [w] + Split(rest)
  {
    var s := w + rest;
    assert s[0] == w[0];
    assert LeadingWhitespace(s) == 0;
    assert s[0..] == s;
    WordLengthOfToken(w, rest);
    assert s[..|w|] == w;
    assert s[|w|..] == rest;
  }

  /** A word of lower-case ASCII letters holds no whitespace. */
  lemma LettersHaveNoWhitespace(w: string)
    requires forall i :: 0 <= i < |w| ==> 'a' <= w[i] <= 'z'
    ensures NoWhitespace(w)
  {
  }

  /** A single token splits to itself. */
  lemma SplitSingleToken(w: string)
    requires IsToken(w)
    ensures Split(w) == [w]
  {
    SplitLeadingToken(w, "");
    assert w + "" == w;
  }

  lemma JoinedStartsWithFirst(ws: seq<string>)
    requires |ws| > 0
    ensures StartsWith(JoinSpaced(ws), ws[0])
  {
    if |ws| > 1 {
      assert JoinSpaced(ws)[..|ws[0]|] == ws[0];
    }
  }

  /** Splitting what `JoinSpaced` produced recovers the tokens. */
  lemma {:induction false} SplitJoinSpaced(ws: seq<string>)
    requires Tokens(ws)
    ensures Split(JoinSpaced(ws)) == ws
  {
    if |ws| == 1 {
      SplitLeadingToken(ws[0], "");
      assert ws[0] + "" == ws[0];
    } else if |ws| > 1 {
      var tail := JoinSpaced(ws[1..]);
      calc {
        Split(JoinSpaced(ws));
        { assert JoinSpaced(ws) == ws[0] + (" " + tail); }
        Split(ws[0] + (" " + tail));
        { SplitLeadingToken(ws[0], " " + tail); }
        [ws[0]] + Split(" " + tail);
        { SplitSkipsSpace(tail); }
        [ws[0]] + Split(tail);
        { SplitJoinSpaced(ws[1..]); }
        [ws[0]] + ws[1..];
        ws;
      }
    }
  }

  /** Python's `s.split(".")[-1]`: the text after the last dot, or all of `s` without one. */
  function LastDotSegment(s: string): (r: string)
    ensures |r| <= |s| && r == s[|s| - |r|..]
    ensures forall i :: 0 <= i < |r| ==> r[i] != '.'
    ensures r == s || s[|s| - |r| - 1] == '.'
  {
    if s == [] then []
    else if s[|s| - 1] == '.' then []
    else LastDotSegment(s[..|s| - 1]) + [s[|s| - 1]]
  }
}
