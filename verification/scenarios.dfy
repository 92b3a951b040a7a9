/**
 Worked examples of cleansing and label resolution, proved about the model.
 The string examples take their literals through `requires s == "..."` rather than
 writing them into the `ensures`: a literal argument lets the verifier unfold
 `Cleanse` on it without bound, and this form keeps each proof within its resource limit.
 */
module Scenarios {
  import opened Results
  import Cleansing
  import Resolution

  /** Case is folded and each `!` becomes its own space. */
  lemma CleanseExample(s: string, t: string)
    requires s == "I absolutely love this product!!!"
    requires t == "i absolutely love this product   "
    ensures Cleansing.Cleanse(s) == t
  {
    assert |s| == |t|;
    assert forall i :: 0 <= i < |s| ==> t[i] == Cleansing.CleanChar(s[i]);
    assert Cleansing.CapitalIDotted !in s;
    Cleansing.CleanseByChar(s, t);
  }

  /** Outside ASCII, cleansing need not keep the length: U+0130 lower-cases to `i` U+0307. */
  lemma CleanseDottedCapitalI(s: string)
    requires s == [Cleansing.CapitalIDotted]
    ensures Cleansing.Cleanse(s) == "i "
  {
    assert s[1..] == [];
    assert Cleansing.Lower(s) == ['i', Cleansing.CombiningDotAbove];
  }

  /** The Kelvin sign lower-cases to an ASCII `k`, which cleansing keeps. */
  lemma CleanseKelvinSign(s: string)
    requires s == [Cleansing.KelvinSign]
    ensures Cleansing.Cleanse(s) == "k"
  {
    Cleansing.CleanseByChar(s, "k");
  }

  /** Accented letters are neither folded to ASCII nor dropped: each becomes one space. */
  lemma CleanseAccentedLetters(s: string)
    requires s == "\U{00C9}t\U{00E9}"
    ensures Cleansing.Cleanse(s) == " t "
  {
    Cleansing.CleanseByChar(s, " t ");
  }

  /** A clear maximum in first, last position; an exact tie goes to the first class. */
  lemma ResolveExamples()
    ensures Resolution.Resolve([0.7, 0.2, 0.1]) == Ok("negative")
    ensures Resolution.Resolve([0.1, 0.1, 0.8]) == Ok("positive")
    ensures Resolution.Resolve([0.5, 0.5, 0.0]) == Ok("negative")
  {
  }
}
