/**
 The text normalisation applied to every request before it reaches a model:
 Python's `str.lower()` followed by `re.sub(r"[^a-zA-Z0-9]", " ", text)`.

 Strings are sequences of Unicode code points, as Python's `str` is. Lower-casing
 is modelled exactly for ASCII and for the two code points whose lower-case form
 is observable after the substitution: U+212A KELVIN SIGN lower-cases to `k`, and
 U+0130 LATIN CAPITAL LETTER I WITH DOT ABOVE lower-cases to the two code points
 `i` U+0307. Every other code point lower-cases to a non-ASCII code point, which
 the substitution then replaces by a space whatever it is.
 */
module Cleansing {

  predicate IsUpper(c: char) { 'A' <= c <= 'Z' }

  predicate IsLower(c: char) { 'a' <= c <= 'z' }

  predicate IsDigit(c: char) { '0' <= c <= '9' }

  /** The character class `[a-zA-Z0-9]` of the substitution pattern. */
  predicate IsAlnum(c: char) { IsUpper(c) || IsLower(c) || IsDigit(c) }

  /** A character that can appear in cleansed text: `[a-z0-9 ]`. */
  predicate IsClean(c: char) { IsLower(c) || IsDigit(c) || c == ' ' }

  predicate IsCleanText(s: string) {
    forall i :: 0 <= i < |s| ==> IsClean(s[i])
  }

  predicate IsAscii(s: string) {
    forall i :: 0 <= i < |s| ==> s[i] < '\U{80}'
  }

  const KelvinSign: char := '\U{212A}'
  const CapitalIDotted: char := '\U{0130}'
  const CombiningDotAbove: char := '\U{0307}'

  /** The lower-case letter of an upper-case ASCII letter. */
  function Downcase(c: char): (d: char)
    requires IsUpper(c)
    ensures IsLower(d) && d - 'a' == c - 'A'
  {
    c - 'A' + 'a'
  }

  /** `str.lower` on a code point other than U+0130, as far as cleansing can observe it. */
  function LowerCode(c: char): char
  {
    if IsUpper(c) then Downcase(c)
    else if c == KelvinSign then 'k'
    else c
  }

  /** `str.lower` on one code point; U+0130 is the one code point that grows. */
  function LowerChar(c: char): string
  {
    if c == CapitalIDotted then ['i', CombiningDotAbove] else [LowerCode(c)]
  }

  /**
   `str.lower()` as far as the substitution can observe it: code point by code point,
   concatenating the lower-case forms. Python's one context-dependent rule (a final
   capital sigma becomes U+03C2 instead of U+03C3) only chooses between two
   non-ASCII code points, which the substitution turns into the same space.
   */
  function Lower(s: string): (r: string)
    ensures |r| == |s| + multiset(s)[CapitalIDotted]
    ensures forall i :: 0 <= i < |r| ==> !IsUpper(r[i])
  {
    if s == [] then []
    else
      assert s == [s[0]] + s[1..];
      assert multiset(s)[CapitalIDotted] == multiset([s[0]])[CapitalIDotted] + multiset(s[1..])[CapitalIDotted];
      LowerChar(s[0]) + Lower(s[1..])
  }

  /** Without U+0130, lower-casing keeps every code point in place. */
  lemma {:induction false} LowerInPlace(s: string)
    requires CapitalIDotted !in s
    ensures |Lower(s)| == |s|
    ensures forall i :: 0 <= i < |s| ==> Lower(s)[i] == LowerCode(s[i])
  {
    if s != [] {
      LowerInPlace(s[1..]);
      assert Lower(s) == [LowerCode(s[0])] + Lower(s[1..]);
    }
  }

  /** `re.sub(r"[^a-zA-Z0-9]", " ", s)`: every code point outside the class becomes one space. */
  function Substitute(s: string): (r: string)
    ensures |r| == |s|
    ensures forall i :: 0 <= i < |s| ==> IsAlnum(s[i]) ==> r[i] == s[i]
    ensures forall i :: 0 <= i < |s| ==> !IsAlnum(s[i]) ==> r[i] == ' '
  {
    if s == [] then []
    else (if IsAlnum(s[0]) then [s[0]] else [' ']) + Substitute(s[1..])
  }

  /**
   What cleansing makes of one code point other than U+0130, stated case by case:
   a letter becomes its lower-case form, a digit stays, the Kelvin sign becomes `k`,
   and anything else becomes a space.
   */
  function CleanChar(c: char): char
  {
    if IsUpper(c) then Downcase(c)
    else if IsLower(c) || IsDigit(c) then c
    else if c == KelvinSign then 'k'
    else ' '
  }

  /** `cleansing(text)`: lower-case, then blank out everything but ASCII letters and digits. */
  function Cleanse(s: string): (r: string)
    ensures IsCleanText(r)
    ensures |r| == |s| + multiset(s)[CapitalIDotted]
    ensures CapitalIDotted !in s ==> forall i :: 0 <= i < |s| ==> r[i] == CleanChar(s[i])
  {
    assert CapitalIDotted !in s ==> forall i :: 0 <= i < |s| ==> Lower(s)[i] == LowerCode(s[i]) by {
      if CapitalIDotted !in s {
        LowerInPlace(s);
      }
    }
    Substitute(Lower(s))
  }

  /** On ASCII input cleansing preserves the length and works position by position. */
  lemma CleanseAscii(s: string)
    requires IsAscii(s)
    ensures |Cleanse(s)| == |s|
    ensures forall i :: 0 <= i < |s| && IsUpper(s[i]) ==> Cleanse(s)[i] == Downcase(s[i])
    ensures forall i :: 0 <= i < |s| && (IsLower(s[i]) || IsDigit(s[i])) ==> Cleanse(s)[i] == s[i]
    ensures forall i :: 0 <= i < |s| && !IsAlnum(s[i]) ==> Cleanse(s)[i] == ' '
  {
    assert CapitalIDotted !in s;
    assert multiset(s)[CapitalIDotted] == 0;
  }

  /** Cleansed text, and only cleansed text, is left unchanged by cleansing. */
  lemma CleanseFixedPoint(t: string)
    ensures Cleanse(t) == t <==> IsCleanText(t)
  {
  }

  /** Cleansing is idempotent. */
  lemma CleanseIdempotent(s: string)
    ensures Cleanse(Cleanse(s)) == Cleanse(s)
  {
    CleanseFixedPoint(Cleanse(s));
  }

  lemma {:induction false} LowerAppend(a: string, b: string)
    ensures Lower(a + b) == Lower(a) + Lower(b)
  {
    if a == [] {
      assert a + b == b;
    } else {
      assert (a + b)[1..] == a[1..] + b;
      LowerAppend(a[1..], b);
    }
  }

  lemma SubstituteAppend(a: string, b: string)
    ensures Substitute(a + b) == Substitute(a) + Substitute(b)
  {
  }

  /**
   Cleansing has no context: the cleansing of a concatenation is the concatenation
   of the cleansings, so a run of punctuation is not collapsed into one space.
   */
  lemma CleanseAppend(a: string, b: string)
    ensures Cleanse(a + b) == Cleanse(a) + Cleanse(b)
  {
    LowerAppend(a, b);
    SubstituteAppend(Lower(a), Lower(b));
  }

  /** Text is the cleansing of an input free of U+0130 when it agrees with `CleanChar` everywhere. */
  lemma CleanseByChar(s: string, t: string)
    requires CapitalIDotted !in s && |s| == |t|
    requires forall i :: 0 <= i < |s| ==> t[i] == CleanChar(s[i])
    ensures Cleanse(s) == t
  {
  }
}
