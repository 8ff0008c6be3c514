/** Character classes and scanning steps of the parsers' regular expressions (src/core/domain/signature.py:34-54). */
module Scanning {
  import Text

  predicate StartsWith(s: string, prefix: string) {
    |prefix| <= |s| && s[..|prefix|] == prefix
  }

  lemma StartsAndRest(a: string, b: string)
    ensures StartsWith(a + b, a) && (a + b)[..|a|] == a && (a + b)[|a|..] == b
  {
  }

  lemma DiffersAt(s: string, word: string, i: nat)
    requires i < |s| && i < |word| && s[i] != word[i]
    ensures !StartsWith(s, word)
  {
    assert |word| <= |s| ==> s[..|word|][i] == s[i];
  }

  /** Length of the longest prefix all of whose characters satisfy p. */
  function Span(s: string, p: char -> bool): (n: nat)
    ensures n <= |s|
    ensures forall i :: 0 <= i < n ==> p(s[i])
    ensures n < |s| ==> !p(s[n])
  {
    if s == "" || !p(s[0]) then 0 else 1 + Span(s[1..], p)
  }

  /** \w, on ASCII text. */
  predicate IsWord(c: char) {
    var n := c as int;
    48 <= n <= 57 || 65 <= n <= 90 || n == 95 || 97 <= n <= 122
  }

  predicate IsWordOrDot(c: char) {
    IsWord(c) || c == '.'
  }

  /** The line boundaries of str.splitlines. */
  predicate IsBreak(c: char) {
    var n := c as int;
    10 <= n <= 13 || 28 <= n <= 30 || n == 0x85 || n == 0x2028 || n == 0x2029
  }

  predicate NotBreak(c: char) {
    !IsBreak(c)
  }

  predicate NotSpace(c: char) {
    !Text.IsSpace(c)
  }

  predicate NotQuote(c: char) {
    c != '\"'
  }

  predicate NotPipe(c: char) {
    c != '|'
  }

  predicate OneLine(s: string) {
    forall i :: 0 <= i < |s| ==> !IsBreak(s[i])
  }

  /** The identifier pattern of every exception-name group: a letter or underscore, then word characters and dots. */
  predicate IsExceptionName(s: string) {
    s != "" && IsWord(s[0]) && !Text.IsDigit(s[0]) && forall i :: 0 <= i < |s| ==> IsWordOrDot(s[i])
  }

  lemma {:induction false} SpanStops(a: string, s: string, p: char -> bool)
    requires forall i :: 0 <= i < |a| ==> p(a[i])
    requires s != "" && !p(s[0])
    ensures Span(a + s, p) == |a|
  {
    if a == "" {
      assert a + s == s;
    } else {
      SpanStops(a[1..], s, p);
      assert (a + s)[1..] == a[1..] + s;
    }
  }

  lemma {:induction false} SpanAll(s: string, p: char -> bool)
    requires forall i :: 0 <= i < |s| ==> p(s[i])
    ensures Span(s, p) == |s|
  {
    if s != "" {
      SpanAll(s[1..], p);
    }
  }

  /** Text that starts with a stopper does not lengthen a span. */
  lemma {:induction false} SpanThrough(a: string, s: string, p: char -> bool)
    requires s != "" && !p(s[0])
    ensures Span(a + s, p) == Span(a, p)
  {
    if a == "" {
      assert a + s == s;
    } else {
      SpanThrough(a[1..], s, p);
      assert (a + s)[1..] == a[1..] + s;
    }
  }
}
