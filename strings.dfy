/** The usual optional value, standing for the source's `null` / `undefined`. */
module Optional {
  datatype Option<T> = None | Some(value: T)
}

/**
  JavaScript's string primitives as the interview trainer uses them: the
  regular-expression classes `\s` and `\w`, `toLowerCase`, `toUpperCase`,
  `trim`, `includes` and the word count obtained from
  `split(/\s+/).filter(w => w.length > 0)`. Case mapping is ASCII only.
 */
module Strings {

  /**
    `\s`, which `trim()` strips as well: tab, line feed, vertical tab, form
    feed, carriage return, the space separators (space, no-break space,
    U+1680, U+2000 to U+200A, U+202F, U+205F, U+3000), the line and paragraph
    separators U+2028 and U+2029, and the byte-order mark U+FEFF.
   */
  predicate IsSpace(c: char) {
    || c == '\t' || c == '\n' || c == '\U{B}' || c == '\U{C}' || c == '\r' || c == ' '
    || c == '\U{A0}' || c == '\U{1680}' || ('\U{2000}' <= c <= '\U{200A}')
    || c == '\U{2028}' || c == '\U{2029}' || c == '\U{202F}' || c == '\U{205F}'
    || c == '\U{3000}' || c == '\U{FEFF}'
  }

  /** The characters that `.` does not match (no `s` flag). */
  predicate IsLineTerminator(c: char) {
    c == '\n' || c == '\r' || c == '\U{2028}' || c == '\U{2029}'
  }

  /** `\w`: ASCII letters, digits and the underscore. */
  predicate IsWordChar(c: char) {
    ('a' <= c <= 'z') || ('A' <= c <= 'Z') || ('0' <= c <= '9') || c == '_'
  }

  predicate IsUpper(c: char) { 'A' <= c <= 'Z' }

  predicate IsLowerLetter(c: char) { 'a' <= c <= 'z' }

  function LowerChar(c: char): (r: char)
    ensures !IsUpper(r)
    ensures IsWordChar(r) == IsWordChar(c)
    ensures !IsUpper(c) ==> r == c
  {
    if IsUpper(c) then (c as int + 32) as char else c
  }

  function UpperChar(c: char): (r: char)
    ensures !IsLowerLetter(r)
    ensures IsWordChar(r) == IsWordChar(c)
    ensures !IsLowerLetter(c) ==> r == c
  {
    if IsLowerLetter(c) then (c as int - 32) as char else c
  }

  /** `toLowerCase()` */
  function Lower(s: string): (r: string)
    ensures |r| == |s|
    ensures forall i :: 0 <= i < |s| ==> r[i] == LowerChar(s[i])
  {
    seq(|s|, i requires 0 <= i < |s| => LowerChar(s[i]))
  }

  /** Leading `\s` removed. */
  function TrimStart(s: string): (r: string)
    ensures |r| <= |s|
    ensures r != [] ==> !IsSpace(r[0])
  {
    if s != [] && IsSpace(s[0]) then TrimStart(s[1..]) else s
  }

  /** Trailing `\s` removed. */
  function TrimEnd(s: string): (r: string)
    ensures |r| <= |s|
    ensures r != [] ==> !IsSpace(r[|r| - 1])
  {
    if s != [] && IsSpace(s[|s| - 1]) then TrimEnd(s[..|s| - 1]) else s
  }

  /** `TrimStart` removes a prefix made only of `\s`. */
  lemma {:induction false} TrimStartDropsSpaces(s: string)
    ensures var r := TrimStart(s);
      && r == s[|s| - |r|..]
      && forall i :: 0 <= i < |s| - |r| ==> IsSpace(s[i])
  {
    if s != [] && IsSpace(s[0]) {
      TrimStartDropsSpaces(s[1..]);
      assert forall i :: 1 <= i < |s| ==> s[1..][i - 1] == s[i];
    }
  }

  /** `TrimEnd` removes a suffix made only of `\s`. */
  lemma {:induction false} TrimEndDropsSpaces(s: string)
    ensures var r := TrimEnd(s);
      && r == s[..|r|]
      && forall i :: |r| <= i < |s| ==> IsSpace(s[i])
  {
    if s != [] && IsSpace(s[|s| - 1]) {
      TrimEndDropsSpaces(s[..|s| - 1]);
      assert forall i :: 0 <= i < |s| - 1 ==> s[..|s| - 1][i] == s[i];
    }
  }

  /** `trim()` */
  function Trim(s: string): string {
    TrimEnd(TrimStart(s))
  }

  /** Nothing but `\s` (the empty string included). */
  predicate IsBlank(s: string) {
    forall i :: 0 <= i < |s| ==> IsSpace(s[i])
  }

  /** A non-empty string is blank exactly when its head is `\s` and its tail is blank. */
  lemma BlankCons(s: string)
    requires s != []
    ensures IsBlank(s) <==> IsSpace(s[0]) && IsBlank(s[1..])
  {
    if IsSpace(s[0]) && IsBlank(s[1..]) {
      forall i | 0 <= i < |s| ensures IsSpace(s[i]) {
        if i > 0 { assert s[i] == s[1..][i - 1]; }
      }
    }
  }

  lemma {:induction false} TrimStartEmptyIffBlank(s: string)
    ensures TrimStart(s) == [] <==> IsBlank(s)
  {
    if s != [] {
      BlankCons(s);
      if IsSpace(s[0]) {
        TrimStartEmptyIffBlank(s[1..]);
      }
    }
  }

  /** `!s.trim()` holds exactly for the blank strings. */
  lemma TrimEmptyIffBlank(s: string)
    ensures Trim(s) == [] <==> IsBlank(s)
  {
    TrimStartEmptyIffBlank(s);
    var t := TrimStart(s);
    if t != [] {
      assert !IsSpace(t[0]);
      assert TrimEnd(t) != [] by {
        if TrimEnd(t) == [] { TrimEndKeepsNonSpace(t, 0); }
      }
    }
  }

  lemma {:induction false} TrimEndKeepsNonSpace(s: string, k: nat)
    requires k < |s| && !IsSpace(s[k])
    ensures k < |TrimEnd(s)|
  {
    if s != [] && IsSpace(s[|s| - 1]) {
      TrimEndKeepsNonSpace(s[..|s| - 1], k);
    }
  }

  /** Length of the run of non-`\s` characters at the head of `s`. */
  function RunLength(s: string): (n: nat)
    ensures n <= |s|
    ensures forall i :: 0 <= i < n ==> !IsSpace(s[i])
    ensures n < |s| ==> IsSpace(s[n])
  {
    if s == [] || IsSpace(s[0]) then 0 else 1 + RunLength(s[1..])
  }

  /**
    `s.split(/\s+/).filter(w => w.length > 0)`: the maximal runs of
    non-`\s` characters, in order.
   */
  function Tokens(s: string): seq<string>
    decreases |s|
  {
    if s == [] then []
    else if IsSpace(s[0]) then Tokens(s[1..])
    else
      var n := RunLength(s);
      [s[..n]] + Tokens(s[n..])
  }

  predicate HasSpace(s: string) {
    exists i :: 0 <= i < |s| && IsSpace(s[i])
  }

  function WordCount(s: string): nat {
    |Tokens(s)|
  }

  /** Every token is a non-empty run with no `\s` in it. */
  lemma {:induction false} TokensAreWords(s: string)
    ensures forall k :: 0 <= k < |Tokens(s)| ==> Tokens(s)[k] != [] && !HasSpace(Tokens(s)[k])
    decreases |s|
  {
    if s == [] {
    } else if IsSpace(s[0]) {
      TokensAreWords(s[1..]);
    } else {
      var n := RunLength(s);
      TokensAreWords(s[n..]);
      assert !HasSpace(s[..n]);
      assert forall k :: 1 <= k < |Tokens(s)| ==> Tokens(s)[k] == Tokens(s[n..])[k - 1];
    }
  }

  /** An answer has no words exactly when it is blank. */
  lemma {:induction false} WordCountZeroIffBlank(s: string)
    ensures WordCount(s) == 0 <==> IsBlank(s)
    decreases |s|
  {
    if s != [] && IsSpace(s[0]) {
      WordCountZeroIffBlank(s[1..]);
      if IsBlank(s[1..]) {
        forall i | 0 <= i < |s| ensures IsSpace(s[i]) {
          if i > 0 { assert s[i] == s[1..][i - 1]; }
        }
      } else {
        var i :| 0 <= i < |s[1..]| && !IsSpace(s[1..][i]);
        assert !IsSpace(s[i + 1]);
      }
    }
  }

  /** A word starts at `i`: a non-`\s` character at the head of the text or right after a `\s`. */
  predicate IsWordStart(s: string, i: int) {
    0 <= i < |s| && !IsSpace(s[i]) && (i == 0 || IsSpace(s[i - 1]))
  }

  /** The positions from `lo` on where a word starts. */
  ghost function WordStartsFrom(s: string, lo: nat): set<int> {
    set i | lo <= i < |s| && IsWordStart(s, i)
  }

  /** A `\s` at `lo` starts no word, so the word starts from `lo` are those from `lo + 1`. */
  lemma WordStartsSkipSpace(s: string, lo: nat)
    requires lo < |s| && IsSpace(s[lo])
    ensures WordStartsFrom(s, lo) == WordStartsFrom(s, lo + 1)
  {
  }

  /** Inside a run of non-`\s` characters only its first position starts a word. */
  lemma WordStartsSkipRun(s: string, lo: nat, n: nat)
    requires 0 < n && lo + n <= |s| && IsWordStart(s, lo)
    requires forall i :: lo <= i < lo + n ==> !IsSpace(s[i])
    ensures |WordStartsFrom(s, lo)| == 1 + |WordStartsFrom(s, lo + n)|
  {
    var rest := WordStartsFrom(s, lo + n);
    forall i | lo < i < lo + n
      ensures !IsWordStart(s, i)
    {
      assert !IsSpace(s[i - 1]);
    }
    assert WordStartsFrom(s, lo) == {lo} + rest;
    assert lo !in rest;
  }

  /** A leading `\s` adds no token. */
  lemma TokensSkipSpace(s: string, lo: nat)
    requires lo < |s| && IsSpace(s[lo])
    ensures Tokens(s[lo..]) == Tokens(s[lo + 1..])
  {
    assert s[lo..][1..] == s[lo + 1..];
  }

  /** The tokens of `s[lo..]` when it begins with the run `s[lo..lo + n]`. */
  lemma TokensOfRun(s: string, lo: nat, n: nat)
    requires lo < |s| && !IsSpace(s[lo]) && n == RunLength(s[lo..])
    ensures 0 < n && lo + n <= |s|
    ensures forall i :: lo <= i < lo + n ==> !IsSpace(s[i])
    ensures lo + n < |s| ==> IsSpace(s[lo + n])
    ensures |Tokens(s[lo..])| == 1 + |Tokens(s[lo + n..])|
  {
    var t := s[lo..];
    assert t[n..] == s[lo + n..];
    forall i | lo <= i < lo + n
      ensures !IsSpace(s[i])
    {
      assert t[i - lo] == s[i];
    }
    if lo + n < |s| {
      assert t[n] == s[lo + n];
    }
  }

  /**
    The tokens of a suffix are as many as the word starts in it, provided the
    suffix does not begin in the middle of a word.
   */
  lemma {:induction false} TokensCountWordStarts(s: string, lo: nat)
    requires lo <= |s|
    requires lo == 0 || lo == |s| || IsSpace(s[lo - 1]) || IsSpace(s[lo])
    ensures |Tokens(s[lo..])| == |WordStartsFrom(s, lo)|
    decreases |s| - lo
  {
    if lo == |s| {
      assert WordStartsFrom(s, lo) == {};
    } else if IsSpace(s[lo]) {
      TokensSkipSpace(s, lo);
      WordStartsSkipSpace(s, lo);
      TokensCountWordStarts(s, lo + 1);
    } else {
      var n := RunLength(s[lo..]);
      TokensOfRun(s, lo, n);
      WordStartsSkipRun(s, lo, n);
      TokensCountWordStarts(s, lo + n);
    }
  }

  /** The word count is the number of positions where a word starts. */
  lemma WordCountIsWordStarts(s: string)
    ensures WordCount(s) == |set i | 0 <= i < |s| && IsWordStart(s, i)|
  {
    TokensCountWordStarts(s, 0);
    assert s[0..] == s;
  }

  /** `s.startsWith(prefix)` */
  predicate StartsWith(s: string, prefix: string) {
    |prefix| <= |s| && s[..|prefix|] == prefix
  }

  /** `hay.includes(needle)`: `needle` occurs in `hay` as a substring. */
  predicate Contains(hay: string, needle: string) {
    exists i :: 0 <= i <= |hay| - |needle| && OccursAt(hay, needle, i)
  }

  /** `needle` occurs in `hay` starting at index `i`. */
  predicate OccursAt(hay: string, needle: string, i: int) {
    0 <= i && i + |needle| <= |hay| && hay[i..i + |needle|] == needle
  }

  /**
    A lower-cased text never contains a needle that has an upper-case letter:
    `Lower(t).includes("useState")` is always false.
   */
  lemma LowerNeverContainsUpper(text: string, needle: string, j: nat)
    requires j < |needle| && IsUpper(needle[j])
    ensures !Contains(Lower(text), needle)
  {
    forall i ensures !OccursAt(Lower(text), needle, i) {
      if 0 <= i && i + |needle| <= |text| {
        assert Lower(text)[i..i + |needle|][j] == Lower(text)[i + j];
      }
    }
  }
}
