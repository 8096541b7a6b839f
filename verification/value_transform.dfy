/**
 * The yes/no recognition applied to the `text1` cell of each incoming row:
 * trimmed and lower-cased, "sim" becomes true, "não" becomes false, and any
 * other value is kept as it was.
 */
module ValueTransform {
  import opened Strings
  import opened Alarms

  const Yes: string := "sim"
  const No: string := "não"

  /** The text the transform compares: the value without surrounding white space, in lower case. */
  function Normalize(v: string): string {
    Lower(Trim(v))
  }

  /** `w` is `word` written in any mix of upper and lower case. */
  ghost predicate CaseVariant(w: string, word: string) {
    |w| == |word| && forall k | 0 <= k < |w| :: LowerChar(w[k]) == word[k]
  }

  /**
   * `v` spells `word` in any case, surrounded by any amount of white space:
   * the set of cell values the transform recognises as `word`.
   */
  ghost predicate SpelledAs(v: string, word: string) {
    exists i, j | 0 <= i <= j <= |v| ::
      AllSpace(v[..i]) && AllSpace(v[j..]) && CaseVariant(v[i..j], word)
  }

  /**
   * `_transformar_valor_booleano` on a cell's text: a boolean only for the
   * two recognised spellings, otherwise the value itself.
   */
  function Transform(v: string): (r: Text1)
    ensures r.Flag? <==> Normalize(v) == Yes || Normalize(v) == No
    ensures r.Flag? ==> (r.b <==> Normalize(v) == Yes)
    ensures r.Raw? ==> r.s == v
  {
    var n := Normalize(v);
    if n == Yes then Flag(true) else if n == No then Flag(false) else Raw(v)
  }

  /**
   * The values recognised are exactly the spellings of "sim" and "não" in
   * any case with any surrounding white space.
   */
  lemma TransformRecognisesSpellings(v: string)
    ensures Transform(v) == Flag(true) <==> SpelledAs(v, Yes)
    ensures Transform(v) == Flag(false) <==> SpelledAs(v, No)
    ensures !SpelledAs(v, Yes) && !SpelledAs(v, No) ==> Transform(v) == Raw(v)
  {
    NormalizeIsSpelling(v, Yes);
    NormalizeIsSpelling(v, No);
  }

  /**
   * Trimming then lower-casing yields a lower-case, unpadded `word` exactly
   * when the value spells that word in some case with some padding.
   */
  lemma NormalizeIsSpelling(v: string, word: string)
    requires word != [] && Unpadded(word)
    ensures Normalize(v) == word <==> SpelledAs(v, word)
  {
    if Normalize(v) == word {
      NormalizedIsSpelled(v, word);
    }
    if SpelledAs(v, word) {
      var i, j :| 0 <= i <= j <= |v| && AllSpace(v[..i]) && AllSpace(v[j..]) && CaseVariant(v[i..j], word);
      SpelledIsNormalized(v, word, i, j);
    }
  }

  lemma NormalizedIsSpelled(v: string, word: string)
    requires Normalize(v) == word
    ensures SpelledAs(v, word)
  {
    var lo := SkipSpaces(v, 0);
    var hi := SkipSpacesBack(v, lo, |v|);
    assert Trim(v) == v[lo..hi];
    assert v[..lo] == v[0..lo];
    assert v[hi..] == v[hi..|v|];
    assert CaseVariant(v[lo..hi], word);
  }

  lemma SpelledIsNormalized(v: string, word: string, i: nat, j: nat)
    requires word != [] && Unpadded(word)
    requires i <= j <= |v| && AllSpace(v[..i]) && AllSpace(v[j..]) && CaseVariant(v[i..j], word)
    ensures Normalize(v) == word
  {
    var w := v[i..j];
    LowerCharKeepsSpaces(w[0]);
    LowerCharKeepsSpaces(w[|w| - 1]);
    assert v == v[..i] + w + v[j..];
    TrimOfPadded(v[..i], w, v[j..]);
    assert Lower(w) == word;
  }

  /** Padding a value with white space never changes how it is classified. */
  lemma TransformIgnoresPadding(a: string, v: string, b: string)
    requires AllSpace(a) && AllSpace(b)
    ensures Transform(a + v + b).Flag? <==> Transform(v).Flag?
    ensures Transform(v).Flag? ==> Transform(a + v + b) == Transform(v)
  {
    TrimIgnoresPadding(a, v, b);
  }

  /** An unpadded value is classified by its lower-case form alone. */
  lemma NormalizeUnpadded(w: string)
    requires Unpadded(w)
    ensures Normalize(w) == Lower(w)
  {
    TrimOfPadded([], w, []);
    assert [] + w + [] == w;
  }

  /** "sim", " SIM " and "Sim" all read as true. */
  lemma TransformSamplesYes()
    ensures Transform("sim") == Flag(true)
    ensures Transform(" SIM ") == Flag(true)
    ensures Transform("Sim") == Flag(true)
  {
    TrimOfPadded(" ", "SIM", " ");
    assert " SIM " == " " + "SIM" + " ";
    NormalizeUnpadded("sim");
    NormalizeUnpadded("Sim");
    assert Lower("SIM") == Yes;
    assert Lower("Sim") == Yes;
    assert Lower("sim") == Yes;
  }

  /** "não" and "NÃO" both read as false. */
  lemma TransformSamplesNo()
    ensures Transform("não") == Flag(false)
    ensures Transform("NÃO") == Flag(false)
  {
    NormalizeUnpadded("não");
    NormalizeUnpadded("NÃO");
    assert Lower("não") == No;
    assert Lower("NÃO") == No;
  }

  /** "talvez" and "3" are kept as they are. */
  lemma TransformSamplesOther()
    ensures Transform("talvez") == Raw("talvez")
    ensures Transform("3") == Raw("3")
  {
    NormalizeUnpadded("talvez");
    NormalizeUnpadded("3");
    assert Lower("talvez")[0] != Yes[0] && Lower("talvez")[0] != No[0];
    assert Lower("3")[0] != Yes[0] && Lower("3")[0] != No[0];
  }
}
