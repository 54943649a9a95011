/** Character classes and scanning helpers shared by the parsers.
    Characters are treated as ASCII: `str.lower()` only folds 'A'..'Z', the
    regex classes `\d` and `\s` only match ASCII digits and ASCII whitespace. */
module Text {

  predicate IsDigit(c: char) { '0' <= c <= '9' }

  /** The ASCII whitespace matched by `\s`: space, tab, newline, vertical tab,
      form feed, carriage return. */
  predicate IsSpace(c: char) { c == ' ' || '\t' <= c <= '\r' }

  /** The regex class `[a-z]`. */
  predicate IsLowerLetter(c: char) { 'a' <= c <= 'z' }

  function DigitValue(c: char): (v: nat)
    requires IsDigit(c)
    ensures v < 10
  {
    c as int - '0' as int
  }

  function Lower(c: char): (d: char)
    ensures 'A' <= c <= 'Z' ==> IsLowerLetter(d)
    ensures !('A' <= c <= 'Z') ==> d == c
  {
    if 'A' <= c <= 'Z' then (c as int - 'A' as int + 'a' as int) as char else c
  }

  /** `str.lower()` over ASCII. */
  function LowerText(s: string): (t: string)
    ensures |t| == |s|
    ensures forall i :: 0 <= i < |s| ==> t[i] == Lower(s[i])
  {
    seq(|s|, i requires 0 <= i < |s| => Lower(s[i]))
  }

  /** `s.replace(c, '')`. */
  function Without(s: string, c: char): (t: string)
    ensures c !in t
    ensures forall x :: x != c ==> (x in t <==> x in s)
  {
    if s == [] then []
    else if s[0] == c then Without(s[1..], c)
    else [s[0]] + Without(s[1..], c)
  }

  /** Python's substring test `pat in s`. */
  predicate Contains(s: string, pat: string)
    decreases |s|
  {
    |pat| <= |s| && (s[..|pat|] == pat || Contains(s[1..], pat))
  }

  /** `any(p in s for p in pats)`. */
  predicate ContainsAny(s: string, pats: seq<string>)
  {
    pats != [] && (Contains(s, pats[0]) || ContainsAny(s, pats[1..]))
  }

  predicate HasDigit(s: string)
  {
    HasDigitFrom(s, 0)
  }

  predicate AllDigits(s: string)
  {
    forall i :: 0 <= i < |s| ==> IsDigit(s[i])
  }

  /** Whether a digit occurs at or after position `i`. */
  predicate HasDigitFrom(s: string, i: nat)
  {
    exists k :: i <= k < |s| && IsDigit(s[k])
  }

  /** End of the longest run of digits starting at `i` (the greedy `\d*`). */
  function DigitsEnd(s: string, i: nat): (j: nat)
    requires i <= |s|
    ensures i <= j <= |s|
    ensures forall k :: i <= k < j ==> IsDigit(s[k])
    ensures j < |s| ==> !IsDigit(s[j])
    decreases |s| - i
  {
    if i == |s| || !IsDigit(s[i]) then i else DigitsEnd(s, i + 1)
  }

  /** End of the longest run of whitespace starting at `i` (the greedy `\s*`). */
  function SpacesEnd(s: string, i: nat): (j: nat)
    requires i <= |s|
    ensures i <= j <= |s|
    ensures forall k :: i <= k < j ==> IsSpace(s[k])
    ensures j < |s| ==> !IsSpace(s[j])
    decreases |s| - i
  {
    if i == |s| || !IsSpace(s[i]) then i else SpacesEnd(s, i + 1)
  }

  /** End of the longest run of `[a-z]` letters starting at `i`. */
  function LettersEnd(s: string, i: nat): (j: nat)
    requires i <= |s|
    ensures i <= j <= |s|
    ensures forall k :: i <= k < j ==> IsLowerLetter(s[k])
    ensures j < |s| ==> !IsLowerLetter(s[j])
    decreases |s| - i
  {
    if i == |s| || !IsLowerLetter(s[i]) then i else LettersEnd(s, i + 1)
  }

  /** A run of digits from `i` to `n` that is not followed by a digit ends
      at `n`. */
  lemma {:induction false} DigitsEndAt(s: string, i: nat, n: nat)
    requires i <= n <= |s|
    requires forall k :: i <= k < n ==> IsDigit(s[k])
    requires n < |s| ==> !IsDigit(s[n])
    ensures DigitsEnd(s, i) == n
    decreases n - i
  {
    if i < n {
      DigitsEndAt(s, i + 1, n);
    }
  }

  /** A run of whitespace from `i` to `n` that is not followed by whitespace
      ends at `n`. */
  lemma {:induction false} SpacesEndAt(s: string, i: nat, n: nat)
    requires i <= n <= |s|
    requires forall k :: i <= k < n ==> IsSpace(s[k])
    requires n < |s| ==> !IsSpace(s[n])
    ensures SpacesEnd(s, i) == n
    decreases n - i
  {
    if i < n {
      SpacesEndAt(s, i + 1, n);
    }
  }

  /** A run of `[a-z]` letters from `i` to `n` that is not followed by such
      a letter ends at `n`. */
  lemma {:induction false} LettersEndAt(s: string, i: nat, n: nat)
    requires i <= n <= |s|
    requires forall k :: i <= k < n ==> IsLowerLetter(s[k])
    requires n < |s| ==> !IsLowerLetter(s[n])
    ensures LettersEnd(s, i) == n
    decreases n - i
  {
    if i < n {
      LettersEndAt(s, i + 1, n);
    }
  }

  /** The number a string of decimal digits denotes (`int(s)`). */
  function DigitsValue(s: string): nat
    requires AllDigits(s)
  {
    if s == [] then 0 else DigitsValue(s[..|s| - 1]) * 10 + DigitValue(s[|s| - 1])
  }

  /** The value of the digits after a decimal point, `0.d1d2...`. */
  function FracValue(s: string): (v: real)
    requires AllDigits(s)
    ensures 0.0 <= v < 1.0
  {
    if s == [] then 0.0 else (DigitValue(s[0]) as real + FracValue(s[1..])) / 10.0
  }

  /** A pattern found at one position is contained in the text. */
  lemma {:induction false} ContainsAt(s: string, pat: string, i: nat)
    requires i + |pat| <= |s| && s[i..i + |pat|] == pat
    ensures Contains(s, pat)
    decreases i
  {
    if i > 0 {
      assert s[1..][i - 1..i - 1 + |pat|] == pat;
      ContainsAt(s[1..], pat, i - 1);
    }
  }

  /** A contained pattern occurs at some position. */
  lemma {:induction false} ContainsWitness(s: string, pat: string) returns (p: nat)
    requires Contains(s, pat)
    ensures p + |pat| <= |s| && s[p..p + |pat|] == pat
    decreases |s|
  {
    if s[..|pat|] == pat {
      p := 0;
    } else {
      var q := ContainsWitness(s[1..], pat);
      assert s[1..][q..q + |pat|] == s[q + 1..q + 1 + |pat|];
      p := q + 1;
    }
  }

  /** What a piece of a text contains, the text contains. */
  lemma ContainsInPiece(s: string, i: nat, j: nat, pat: string)
    requires i <= j <= |s| && Contains(s[i..j], pat)
    ensures Contains(s, pat)
  {
    var p := ContainsWitness(s[i..j], pat);
    forall x | 0 <= x < |pat|
      ensures s[i + p..i + p + |pat|][x] == pat[x]
    {
      assert pat[x] == s[i..j][p + x];
    }
    assert s[i + p..i + p + |pat|] == pat;
    ContainsAt(s, pat, i + p);
  }

  /** A text can only contain a pattern if it contains each of its characters. */
  lemma {:induction false} ContainsNeedsChar(s: string, pat: string, c: char)
    requires Contains(s, pat) && c in pat
    ensures c in s
    decreases |s|
  {
    if s[..|pat|] == pat {
      assert c in s[..|pat|];
    } else {
      ContainsNeedsChar(s[1..], pat, c);
      assert c in s[1..];
    }
  }

  /** When every pattern holds a character absent from the text, none matches. */
  lemma {:induction false} ContainsAnyNeedsChar(s: string, pats: seq<string>, c: char)
    requires c !in s && forall i :: 0 <= i < |pats| ==> c in pats[i]
    ensures !ContainsAny(s, pats)
    decreases |pats|
  {
    if pats != [] {
      if Contains(s, pats[0]) {
        ContainsNeedsChar(s, pats[0], c);
      }
      ContainsAnyNeedsChar(s, pats[1..], c);
    }
  }

  /** Removing a character distributes over concatenation. */
  lemma {:induction false} WithoutConcat(a: string, b: string, c: char)
    ensures Without(a + b, c) == Without(a, c) + Without(b, c)
  {
    if a == [] {
      assert a + b == b;
    } else {
      assert (a + b)[0] == a[0] && (a + b)[1..] == a[1..] + b;
      WithoutConcat(a[1..], b, c);
    }
  }

  /** Removing `c` from text that has one `c` after a `c`-free part. */
  lemma WithoutSkip(a: string, b: string, c: char)
    requires c !in a
    ensures Without(a + [c] + b, c) == a + Without(b, c)
  {
    WithoutConcat(a + [c], b, c);
    WithoutConcat(a, [c], c);
    WithoutAbsent(a, c);
  }

  lemma {:induction false} WithoutAbsent(s: string, c: char)
    requires c !in s
    ensures Without(s, c) == s
  {
    if s != [] {
      WithoutAbsent(s[1..], c);
    }
  }
}
