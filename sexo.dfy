/**
 * The copy of the detector in the script `test_sexo.py`: the fixed phrase
 * lists of the backend's detector (the last user line, then the whole
 * dialogue), without the term map and without the registry names.
 */
module TestSexo {
  import opened Options
  import opened Text
  import opened Formulas
  import opened ChatDetector
  import opened TestCompleto

  /** The script's `detectar_formula_en_prompt`. */
  function DetectSexo(prompt: string, reg: Registry): (r: Detection)
    ensures r.key.None? ==> r.formula.None?
  {
    match DetectByPhrases(prompt, reg)
    case Some(d) => d
    case None => Detection(None, None)
  }

  /** Where a fixed phrase decides, the script agrees with the backend's detector. */
  lemma AgreesWithBackend(prompt: string, reg: Registry)
    requires DetectByPhrases(prompt, reg).Some?
    ensures DetectSexo(prompt, reg) == Detect(prompt, reg)
  {
  }

  /**
   * Nothing is detected exactly when the last user line names no
   * composition and the dialogue holds no composition term and no IMC
   * phrase.
   */
  lemma NothingIff(prompt: string, reg: Registry)
    ensures var pl := Lower(prompt);
      DetectSexo(prompt, reg).key.None? <==>
        && !AnyIn(LastUserLine(prompt), CompAliases)
        && !AnyIn(pl, CompQuestionTerms) && !Contains(pl, "composicion corporal") && !Contains(pl, "composición corporal")
        && !AnyIn(pl, ImcAliases)
  {
    PhrasesNothing(prompt, reg);
  }

  /**
   * A short answer such as a sex letter never names a formula itself, so
   * the whole dialogue decides: composition for a composition term, else
   * IMC for an IMC phrase, else nothing.
   */
  lemma ShortAnswerFallsThrough(prompt: string, reg: Registry)
    requires |LastUserLine(prompt)| < 3
    ensures var pl := Lower(prompt);
      && (DetectSexo(prompt, reg).key == Some(CompositionKey) <==>
            AnyIn(pl, CompQuestionTerms) || Contains(pl, "composicion corporal") || Contains(pl, "composición corporal"))
      && (DetectSexo(prompt, reg).key == Some(ImcKey) <==>
            !AnyIn(pl, CompQuestionTerms) && !Contains(pl, "composicion corporal") && !Contains(pl, "composición corporal")
            && AnyIn(pl, ImcAliases))
  {
    ShortNamesNothing(LastUserLine(prompt));
    var pl := Lower(prompt);
    var comp := AnyIn(pl, CompQuestionTerms) || Contains(pl, "composicion corporal") || Contains(pl, "composición corporal");
    if comp {
      assert DetectByPhrases(prompt, reg) == Some(Found(reg, CompositionKey));
    } else if AnyIn(pl, ImcAliases) {
      assert DetectByPhrases(prompt, reg) == Some(Found(reg, ImcKey));
    } else {
      assert DetectByPhrases(prompt, reg).None?;
    }
  }

  /** A text of fewer than three characters names no formula. */
  lemma ShortNamesNothing(u: string)
    requires |u| < 3
    ensures !AnyIn(u, CompAliases) && !AnyIn(u, ImcAliases)
  {
    ShortNoComposition(u);
    ShortNoImc(u);
  }

  lemma ShortNoComposition(u: string)
    requires |u| < 3
    ensures !AnyIn(u, CompAliases)
  {
    AnyInShort(u, CompAliases);
  }

  lemma ShortNoImc(u: string)
    requires |u| < 3
    ensures !AnyIn(u, ImcAliases)
  {
    ImcAliasesLong();
    AnyInShort(u, ImcAliases);
  }

  /** Every IMC phrase has at least three characters. */
  lemma ImcAliasesLong()
    ensures forall k :: 0 <= k < |ImcAliases| ==> |ImcAliases[k]| >= 3
  {
  }

  /** The last line of both dialogues of the script is the sex answer `M`. */
  lemma SexAnswerLine(prompt: string)
    requires |Lines(prompt)| > 0 && Last(Lines(prompt)) == "user: M"
    ensures LastUserLine(prompt) == "m"
  {
    var s := Last(Lines(prompt));
    SexAnswerText(s);
    assert LastUserLine(prompt) == UserText(s);
  }

  /** The line "user: M" is a user line whose text is "m". */
  lemma SexAnswerText(s: string)
    requires s == "user: M"
    ensures IsUserLine(s) && UserText(s) == "m"
  {
    TrimEnds(s, IsPySpace);
    var m := Lower(PyStrip(s));
    assert m == "user: m";
    assert StartsWith(m, "user:");
    var t := m[5..];
    assert t == " m";
    assert TrimLeft(t, IsPySpace) == TrimLeft(t[1..], IsPySpace);
    assert t[1..] == "m";
    TrimEnds(t[1..], IsPySpace);
  }

  /**
   * The script's second dialogue: it opens with a request for a body
   * composition and ends with the answer `M`, so composition is detected.
   */
  lemma CompositionInProgressDetected(prompt: string, rest: string, reg: Registry)
    requires prompt == "user: composicion corporal" + rest
    requires |Lines(prompt)| > 0 && Last(Lines(prompt)) == "user: M"
    ensures DetectSexo(prompt, reg).key == Some(CompositionKey)
  {
    SexAnswerLine(prompt);
    OpeningNamesComposition(prompt, rest);
    ShortAnswerFallsThrough(prompt, reg);
  }

  /** A dialogue opening with the composition request holds the phrase once lower-cased. */
  lemma OpeningNamesComposition(prompt: string, rest: string)
    requires prompt == "user: composicion corporal" + rest
    ensures Contains(Lower(prompt), "composicion corporal")
  {
    var head := "user: composicion corporal";
    LowerConcat(head, rest);
    LowerCaseLine(head);
    assert head[6..] == "composicion corporal";
    ContainsSelf("composicion corporal");
    ContainsSlice(head, 6, |head|);
    ContainsTrans(head, head[6..], "composicion corporal");
    ContainsConcat(head, Lower(rest), "composicion corporal");
  }
}
