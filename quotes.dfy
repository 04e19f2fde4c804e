/**
  Quote trimming of a string literal's raw text, as done by
  `trim_matches(&['\'', '"'])`: every leading and every trailing `'` or `"`
  is removed, in any mix, and the interior is left as it is (no unescaping).
 */
module Quotes {

  predicate IsQuote(c: char) {
    c == '\'' || c == '"'
  }

  /** Neither the first nor the last character is a quote. */
  predicate NoOuterQuote(s: string) {
    s == [] || (!IsQuote(s[0]) && !IsQuote(s[|s| - 1]))
  }

  /**
    Cutting `s` at `i` and `j` is a quote trim: only quotes lie before `i`
    and from `j` on, and a non-empty `s[i..j]` has no quote at either end.
   */
  ghost predicate IsTrimCut(s: string, i: int, j: int) {
    && 0 <= i <= j <= |s|
    && (forall k :: 0 <= k < i ==> IsQuote(s[k]))
    && (forall k :: j <= k < |s| ==> IsQuote(s[k]))
    && (i < j ==> !IsQuote(s[i]) && !IsQuote(s[j - 1]))
  }

  /** `r` is what trimming `s` must give: the slice between a quote-trim cut. */
  ghost predicate IsQuoteTrimOf(s: string, r: string) {
    exists i, j :: IsTrimCut(s, i, j) && r == s[i..j]
  }

  /** Strips leading quotes, one at a time. */
  function TrimStart(s: string): (r: string)
    ensures |r| <= |s|
    decreases |s|
  {
    if |s| > 0 && IsQuote(s[0]) then TrimStart(s[1..]) else s
  }

  /** Strips trailing quotes, one at a time. */
  function TrimEnd(s: string): (r: string)
    ensures |r| <= |s|
    decreases |s|
  {
    if |s| > 0 && IsQuote(s[|s| - 1]) then TrimEnd(s[..|s| - 1]) else s
  }

  /** `TrimStart` removes a run of quotes from the front and stops at the first non-quote. */
  lemma {:induction false} TrimStartSpec(s: string)
    ensures |TrimStart(s)| <= |s| && TrimStart(s) == s[|s| - |TrimStart(s)|..]
    ensures forall k :: 0 <= k < |s| - |TrimStart(s)| ==> IsQuote(s[k])
    ensures TrimStart(s) == [] || !IsQuote(TrimStart(s)[0])
    decreases |s|
  {
    if |s| > 0 && IsQuote(s[0]) {
      TrimStartSpec(s[1..]);
      assert forall k :: 1 <= k < |s| ==> s[k] == s[1..][k - 1];
    }
  }

  /** `TrimEnd` removes a run of quotes from the back and stops at the last non-quote. */
  lemma {:induction false} TrimEndSpec(s: string)
    ensures |TrimEnd(s)| <= |s| && TrimEnd(s) == s[..|TrimEnd(s)|]
    ensures forall k :: |TrimEnd(s)| <= k < |s| ==> IsQuote(s[k])
    ensures TrimEnd(s) == [] || !IsQuote(TrimEnd(s)[|TrimEnd(s)| - 1])
    decreases |s|
  {
    if |s| > 0 && IsQuote(s[|s| - 1]) {
      TrimEndSpec(s[..|s| - 1]);
    }
  }

  /**
    The specifier text of a string literal: its raw text with outer quotes
    trimmed. `TrimQuotesCharacterized` below says exactly what it returns.
   */
  function TrimQuotes(s: string): (r: string)
    ensures |r| <= |s|
  {
    TrimEnd(TrimStart(s))
  }

  /** Trimming cuts off only quotes, at both ends, and leaves no quote at either end. */
  lemma TrimQuotesIsQuoteTrim(s: string)
    ensures IsQuoteTrimOf(s, TrimQuotes(s))
  {
    var front := TrimStart(s);
    var r := TrimEnd(front);
    TrimStartSpec(s);
    TrimEndSpec(front);
    var i := |s| - |front|;
    assert r == s[i..i + |r|];
    assert IsTrimCut(s, i, i + |r|);
  }

  /** Two quote-trim cuts of the same text keep the same slice. */
  lemma TrimCutUnique(s: string, i1: int, j1: int, i2: int, j2: int)
    requires IsTrimCut(s, i1, j1) && IsTrimCut(s, i2, j2)
    ensures s[i1..j1] == s[i2..j2]
  {
    if i1 < j1 && i2 < j2 {
      assert i1 == i2 && j1 == j2;
    }
  }

  /** A quote trim of `s` is unique: any two slices meeting the description are equal. */
  lemma QuoteTrimUnique(s: string, r1: string, r2: string)
    requires IsQuoteTrimOf(s, r1) && IsQuoteTrimOf(s, r2)
    ensures r1 == r2
  {
    var i1, j1 :| IsTrimCut(s, i1, j1) && r1 == s[i1..j1];
    var i2, j2 :| IsTrimCut(s, i2, j2) && r2 == s[i2..j2];
    TrimCutUnique(s, i1, j1, i2, j2);
  }

  /** Trimming gives exactly the quote trim described by `IsQuoteTrimOf`, in both directions. */
  lemma TrimQuotesCharacterized(s: string, r: string)
    ensures IsQuoteTrimOf(s, r) <==> r == TrimQuotes(s)
  {
    TrimQuotesIsQuoteTrim(s);
    if IsQuoteTrimOf(s, r) {
      QuoteTrimUnique(s, r, TrimQuotes(s));
    }
  }

  /** The trimmed text neither starts nor ends with a quote, and is a slice of the raw text. */
  lemma TrimQuotesShape(s: string)
    ensures NoOuterQuote(TrimQuotes(s))
    ensures exists i, j :: 0 <= i <= j <= |s| && TrimQuotes(s) == s[i..j]
  {
    var front := TrimStart(s);
    var r := TrimEnd(front);
    TrimStartSpec(s);
    TrimEndSpec(front);
    var i := |s| - |front|;
    assert r == s[i..i + |r|];
    if r != [] {
      assert r[0] == front[0];
    }
  }

  /** Text that has no quote at either end is left unchanged. */
  lemma TrimQuotesKeepsUnquoted(s: string)
    requires NoOuterQuote(s)
    ensures TrimQuotes(s) == s
  {
    assert s == s[0..|s|] && IsTrimCut(s, 0, |s|);
    TrimQuotesIsQuoteTrim(s);
    QuoteTrimUnique(s, s, TrimQuotes(s));
  }

  /** Trimming twice is trimming once. */
  lemma TrimQuotesIdempotent(s: string)
    ensures TrimQuotes(TrimQuotes(s)) == TrimQuotes(s)
  {
    TrimQuotesShape(s);
    TrimQuotesKeepsUnquoted(TrimQuotes(s));
  }

  /** A body without outer quotes, wrapped in one quote on each side (in any mix), comes back unchanged. */
  lemma TrimQuotesOfQuoted(open: char, body: string, close: char)
    requires IsQuote(open) && IsQuote(close) && NoOuterQuote(body)
    ensures TrimQuotes([open] + body + [close]) == body
  {
    var s := [open] + body + [close];
    assert s[1..1 + |body|] == body;
    assert IsTrimCut(s, 1, 1 + |body|);
    TrimQuotesIsQuoteTrim(s);
    QuoteTrimUnique(s, body, TrimQuotes(s));
  }
}
