/**
 * The copy of the engine in the script `test_separacion_formulas.py`.
 *
 * Its detector looks at the last user line only; its extractor knows the
 * weight and height patterns and has no fallback; its new-request flag has
 * no exemption for plain answers; and it lists the missing parameters by
 * name.
 */
module TestSeparacion {
  import opened Options
  import opened Text
  import opened Formulas
  import opened ChatDetector
  import opened Extraction
  import opened ChatFlow
  import opened TestCompleto

  /** The script's `detectar_formula_en_prompt`: the last user line only. */
  function DetectLastLine(prompt: string, reg: Registry): (r: Detection)
    ensures r.key.None? ==> r.formula.None?
  {
    var u := LastUserLine(prompt);
    if u != "" && AnyIn(u, CompAliases) then Found(reg, CompositionKey)
    else if u != "" && AnyIn(u, ImcAliases) then Found(reg, ImcKey)
    else Detection(None, None)
  }

  /** Composition wins over IMC, and nothing is detected unless the last user line names a formula. */
  lemma DetectLastLineCases(prompt: string, reg: Registry)
    ensures var u := LastUserLine(prompt);
      && (DetectLastLine(prompt, reg).key == Some(CompositionKey) <==> AnyIn(u, CompAliases))
      && (DetectLastLine(prompt, reg).key == Some(ImcKey) <==> !AnyIn(u, CompAliases) && AnyIn(u, ImcAliases))
      && (DetectLastLine(prompt, reg).key.None? <==> !AnyIn(u, CompAliases) && !AnyIn(u, ImcAliases))
  {
    var u := LastUserLine(prompt);
    AnyInNonEmpty(u, CompAliases);
    AnyInNonEmpty(u, ImcAliases);
  }

  /** A text naming a composition or IMC phrase holds the letter `c`. */
  lemma AliasesNeedC(u: string)
    ensures AnyIn(u, CompAliases) || AnyIn(u, ImcAliases) ==> 'c' in u
  {
    if AnyIn(u, CompAliases) || AnyIn(u, ImcAliases) {
      AliasesHoldC(u);
    }
  }

  /** Every composition and IMC phrase holds the letter `c`. */
  lemma AliasesHoldC(u: string)
    requires AnyIn(u, CompAliases) || AnyIn(u, ImcAliases)
    ensures 'c' in u
  {
    if AnyIn(u, CompAliases) {
      AnyInIff(u, CompAliases);
      var k :| 0 <= k < |CompAliases| && Contains(u, CompAliases[k]);
      assert NuevasSolicitudes[k] == CompAliases[k];
      AnyInIff(u, NuevasSolicitudes);
      PhrasesHoldC(u);
    } else {
      AnyInIff(u, ImcAliases);
      var k :| 0 <= k < |ImcAliases| && Contains(u, ImcAliases[k]);
      var w := ImcAliases[k];
      if k == 0 || k == 1 { ContainsChar(u, w, 0); }
      else if k == 2 { ContainsChar(u, w, 2); }
      else if k == 3 || k == 4 { ContainsChar(u, w, 4); }
      else { ContainsChar(u, w, 0); }
    }
  }

  /**
   * An answer loses the formula: when the last user text is a bare number
   * (the reply to a question), this detector finds nothing, for whatever
   * came before it.
   */
  lemma AnswerDetectsNothing(prompt: string, reg: Registry)
    requires IsBareNumber(LastUserLine(prompt))
    ensures DetectLastLine(prompt, reg) == Detection(None, None)
  {
    var u := LastUserLine(prompt);
    AliasesNeedC(u);
    BareNumberNoChar(u, 'c');
  }

  /** The script's flag: a formula was found and the last user text names a phrase. */
  predicate SeparacionFlag(prompt: string, reg: Registry) {
    var u := LastUserLine(prompt);
    DetectLastLine(prompt, reg).formula.Some? && u != "" && AnyIn(u, NuevasSolicitudes)
  }

  /** Without the exemption the flag is the same as the backend's: no phrase is a plain answer. */
  lemma FlagWithoutExemption(prompt: string, reg: Registry)
    ensures SeparacionFlag(prompt, reg) <==>
              DetectLastLine(prompt, reg).formula.Some? && EsNuevaSolicitud(LastUserLine(prompt))
  {
    NuevaSolicitudIsPhrase(LastUserLine(prompt));
    AnyInNonEmpty(LastUserLine(prompt), NuevasSolicitudes);
  }

  /** The weight and the height, by the patterns alone. */
  function SeparacionParams(t: string): (p: Params)
    ensures p.Keys <= {"peso", "altura"}
    ensures "peso" in p <==> FirstMatch(t, PesoPatterns, PesoRule).Some?
    ensures "altura" in p <==> FirstMatch(t, AlturaMetrePatterns, MetreRule).Some?
  {
    Assemble(FirstMatch(t, PesoPatterns, PesoRule), FirstMatch(t, AlturaMetrePatterns, MetreRule), None, None)
  }

  /** The script's `extraer_parametros_usuario`. */
  function ExtractSeparacion(prompt: string, nueva: bool): Params {
    SeparacionParams(ScanText(prompt, nueva))
  }

  /** The two pattern loops. */
  method ExtraerParametros(prompt: string, nueva: bool) returns (params: Params)
    ensures params == ExtractSeparacion(prompt, nueva)
    ensures WellFormed(params)
  {
    var texto := Lower(prompt);
    if nueva {
      var lineas := Lines(prompt);
      var reciente := if |lineas| > 3 then lineas[|lineas| - 3..] else lineas;
      texto := Lower(Join(reciente, '\n'));
    }
    assert texto == ScanText(prompt, nueva);
    var peso := FirstPatternInRange(texto, PesoPatterns, PesoRule);
    var altura := FirstPatternInRange(texto, AlturaMetrePatterns, MetreRule);
    params := Assemble(peso, altura, None, None);
    AssembleOk(peso, altura, None, None);
  }

  /** The names of the parameters `ms`. */
  function Names(ms: seq<Param>): (r: seq<string>)
    ensures |r| == |ms|
    ensures forall i :: 0 <= i < |ms| ==> r[i] == ms[i].nombre
  {
    seq(|ms|, i requires 0 <= i < |ms| => ms[i].nombre)
  }

  lemma NamesConcat(a: seq<Param>, b: seq<Param>)
    ensures Names(a + b) == Names(a) + Names(b)
  {
    assert forall i :: 0 <= i < |a + b| ==> Names(a + b)[i] == (Names(a) + Names(b))[i];
  }

  /** The `faltantes` loop of names. */
  method FaltantesNombres(ps: seq<Param>, p: Params) returns (faltantes: seq<string>)
    ensures faltantes == Names(Missing(ps, p))
  {
    faltantes := [];
    var i := 0;
    while i < |ps|
      invariant 0 <= i <= |ps|
      invariant faltantes == Names(Missing(ps[..i], p))
    {
      assert ps[..i + 1][..i] == ps[..i];
      ghost var m := Missing(ps[..i], p);
      if ps[i].nombre !in p {
        assert Missing(ps[..i + 1], p) == m + [ps[i]];
        NamesConcat(m, [ps[i]]);
        faltantes := faltantes + [ps[i].nombre];
      } else {
        assert Missing(ps[..i + 1], p) == m + [];
        assert m + [] == m;
      }
      i := i + 1;
    }
    assert ps[..i] == ps;
  }

  /** Every parameter is missing exactly when none of their names was extracted. */
  lemma {:induction false} MissingAll(ps: seq<Param>, p: Params)
    ensures |Missing(ps, p)| == |ps| <==> forall i :: 0 <= i < |ps| ==> ps[i].nombre !in p
    decreases |ps|
  {
    if |ps| > 0 {
      var front := ps[..|ps| - 1];
      MissingAll(front, p);
      if forall i :: 0 <= i < |ps| ==> ps[i].nombre !in p {
        assert forall i :: 0 <= i < |front| ==> front[i].nombre !in p by {
          forall i | 0 <= i < |front| ensures front[i].nombre !in p { assert front[i] == ps[i]; }
        }
        assert ps[|ps| - 1].nombre !in p;
      } else {
        var i :| 0 <= i < |ps| && ps[i].nombre in p;
        if i < |ps| - 1 {
          assert front[i] == ps[i];
        }
      }
    }
  }

  /**
   * The test's expectation: with nothing extracted, every parameter of the
   * detected formula is listed as missing, in the formula's order.
   */
  lemma NothingExtractedAllMissing(ps: seq<Param>)
    ensures Names(Missing(ps, map[])) == Names(ps)
  {
    MissingAll(ps, map[]);
    MissingAllSame(ps, map[]);
  }

  /** When every parameter is missing, the list of the missing ones is the whole list. */
  lemma {:induction false} MissingAllSame(ps: seq<Param>, p: Params)
    requires forall i :: 0 <= i < |ps| ==> ps[i].nombre !in p
    ensures Missing(ps, p) == ps
    decreases |ps|
  {
    if |ps| > 0 {
      var front := ps[..|ps| - 1];
      assert forall i :: 0 <= i < |front| ==> front[i].nombre !in p by {
        forall i | 0 <= i < |front| ensures front[i].nombre !in p { assert front[i] == ps[i]; }
      }
      MissingAllSame(front, p);
      var last := ps[|ps| - 1];
      assert last.nombre !in p;
      assert Missing(ps, p) == Missing(front, p) + [last];
      assert ps == front + [last];
    }
  }

  /**
   * The test's situation: the last line asks for a body composition and
   * the registry holds it, so the composition is detected, the flag is set
   * and only the last three lines are searched.
   */
  lemma SeparationScenario(prompt: string, reg: Registry)
    requires |Lines(prompt)| > 0 && Last(Lines(prompt)) == "user: composicion corporal"
    requires HasKey(reg, CompositionKey)
    ensures DetectLastLine(prompt, reg).key == Some(CompositionKey)
    ensures SeparacionFlag(prompt, reg)
    ensures ExtractSeparacion(prompt, SeparacionFlag(prompt, reg)) == ExtractSeparacion(prompt, true)
  {
    CompositionLine(prompt);
    CompositionPhrase(LastUserLine(prompt));
  }

  /** "composicion corporal" is the first new-request phrase. */
  lemma CompositionPhrase(u: string)
    requires u == "composicion corporal"
    ensures AnyIn(u, NuevasSolicitudes)
  {
    ContainsSelf(u);
    assert Contains(u, NuevasSolicitudes[0]);
  }
}
