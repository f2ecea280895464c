/**
 * The formula branch of the chat endpoint: the new-request flag, the
 * missing parameters and the single question asked for the first of them,
 * the choice between the two calculations, and the apology for a
 * calculation the registry does not know. Any other prompt is handed to
 * the language model.
 */
module ChatFlow {
  import opened Options
  import opened Text
  import opened Formulas
  import opened ChatDetector
  import opened Extraction
  import opened Evaluation

  // ---------------------------------------------------------------------
  // The new-request flag

  /** `re.match(r'^\s*\d+(\.\d+)?\s*$', t)` on a stripped `t`: digits, optionally a point and more digits. */
  predicate IsBareNumber(t: string) {
    var n := DigitRunOf(t, 0);
    n >= 1 && (n == |t| || (t[n] == '.' && 0 < DigitRunOf(t, n + 1) && n + 1 + DigitRunOf(t, n + 1) == |t|))
  }

  /** The length of the run of decimal digits of `s` from `p`. */
  function DigitRunOf(s: string, p: nat): (n: nat)
    requires p <= |s|
    ensures p + n <= |s|
    ensures forall k :: p <= k < p + n ==> IsDigit(s[k])
    ensures p + n == |s| || !IsDigit(s[p + n])
    decreases |s| - p
  {
    if p < |s| && IsDigit(s[p]) then 1 + DigitRunOf(s, p + 1) else 0
  }

  /** `re.match(r'^\s*[mf]\s*$', t, re.IGNORECASE)` on a stripped `t`. */
  predicate IsSexoAnswer(t: string) {
    |t| == 1 && t[0] in {'m', 'f', 'M', 'F'}
  }

  /** The phrases of the last user line that make the turn a new request. */
  const NuevasSolicitudes: seq<string> := ["composicion corporal", "composición corporal", "analisis corporal",
                                           "análisis corporal", "calcular imc", "calcula imc", "imc"]

  /** The flag for the last user text `u`: not a plain answer, and naming one of the phrases. */
  predicate EsNuevaSolicitud(u: string) {
    u != "" && !(IsBareNumber(PyStrip(u)) || IsSexoAnswer(PyStrip(u))) && AnyIn(u, NuevasSolicitudes)
  }

  /** The phrase loop with its `break`. */
  method NuevaSolicitud(u: string) returns (nueva: bool)
    ensures nueva == EsNuevaSolicitud(u)
  {
    nueva := false;
    if u != "" {
      var t := PyStrip(u);
      if !(IsBareNumber(t) || IsSexoAnswer(t)) {
        var i := 0;
        while i < |NuevasSolicitudes|
          invariant 0 <= i <= |NuevasSolicitudes|
          invariant AnyIn(u, NuevasSolicitudes) == AnyIn(u, NuevasSolicitudes[i..])
        {
          if Contains(u, NuevasSolicitudes[i]) {
            nueva := true;
            break;
          }
          assert NuevasSolicitudes[i..][1..] == NuevasSolicitudes[i + 1..];
          i := i + 1;
        }
      }
    }
  }

  /** A bare number holds only digits and '.', so a text with any other character is not one. */
  lemma BareNumberNoChar(t: string, c: char)
    requires !IsDigit(c) && c != '.'
    ensures c in t ==> !IsBareNumber(t)
  {
    if IsBareNumber(t) {
      BareNumberChars(t);
    }
  }

  /** A bare number holds only digits and at most one point. */
  lemma BareNumberChars(t: string)
    requires IsBareNumber(t)
    ensures forall k :: 0 <= k < |t| ==> IsDigit(t[k]) || t[k] == '.'
  {
    var n := DigitRunOf(t, 0);
    if n < |t| {
      var m := DigitRunOf(t, n + 1);
      forall k | 0 <= k < |t| ensures IsDigit(t[k]) || t[k] == '.' {
        if k < n {
        } else if k == n {
        } else {
          assert n + 1 <= k < n + 1 + m;
        }
      }
    }
  }

  /** Every phrase of the flag's list holds the letter `c`. */
  lemma PhrasesHoldC(u: string)
    requires AnyIn(u, NuevasSolicitudes)
    ensures 'c' in u
  {
    AnyInIff(u, NuevasSolicitudes);
    var k :| 0 <= k < |NuevasSolicitudes| && Contains(u, NuevasSolicitudes[k]);
    var w := NuevasSolicitudes[k];
    if k == 0 || k == 1 { ContainsChar(u, w, 0); }
    else if k == 2 || k == 3 { ContainsChar(u, w, 9); }
    else if k == 6 { ContainsChar(u, w, 2); }
    else { ContainsChar(u, w, 0); }
  }

  /**
   * The exemption for plain answers never changes the flag: a text naming
   * one of the phrases holds a `c`, and a bare number or a lone sex letter
   * does not. So the flag is exactly "the last user text names a phrase".
   */
  lemma NuevaSolicitudIsPhrase(u: string)
    ensures EsNuevaSolicitud(u) <==> AnyIn(u, NuevasSolicitudes)
  {
    if AnyIn(u, NuevasSolicitudes) {
      PhrasesHoldC(u);
      TrimKeeps(u, IsPySpace, 'c');
      BareNumberNoChar(PyStrip(u), 'c');
      AnyInNonEmpty(u, NuevasSolicitudes);
    }
  }

  // ---------------------------------------------------------------------
  // Missing parameters and the question

  /** The registry parameters whose names were not extracted, in registry order. */
  function Missing(ps: seq<Param>, p: Params): (r: seq<Param>)
    ensures |r| <= |ps|
    decreases |ps|
  {
    if |ps| == 0 then []
    else
      var front := ps[..|ps| - 1];
      var last := ps[|ps| - 1];
      Missing(front, p) + (if last.nombre in p then [] else [last])
  }

  /** A parameter is listed as missing exactly when it is a registry parameter whose name was not extracted. */
  lemma {:induction false} MissingMembers(ps: seq<Param>, p: Params)
    ensures forall x :: x in Missing(ps, p) <==> x in ps && x.nombre !in p
    decreases |ps|
  {
    if |ps| > 0 {
      var front := ps[..|ps| - 1];
      var last := ps[|ps| - 1];
      MissingMembers(front, p);
      assert ps == front + [last];
    }
  }

  /** The first missing parameter is the first registry parameter that was not extracted. */
  lemma {:induction false} MissingFirst(ps: seq<Param>, p: Params)
    requires Missing(ps, p) != []
    ensures exists i :: 0 <= i < |ps| && ps[i] == Missing(ps, p)[0] && ps[i].nombre !in p
                        && forall j :: 0 <= j < i ==> ps[j].nombre in p
    decreases |ps|
  {
    var front := ps[..|ps| - 1];
    if Missing(front, p) != [] {
      MissingFirst(front, p);
      var i :| 0 <= i < |front| && front[i] == Missing(front, p)[0] && front[i].nombre !in p
               && forall j :: 0 <= j < i ==> front[j].nombre in p;
      assert ps[i] == front[i];
      assert forall j :: 0 <= j < i ==> ps[j] == front[j];
    } else {
      var i := |ps| - 1;
      NoneMissing(front, p);
      assert forall j :: 0 <= j < i ==> ps[j] == front[j];
    }
  }

  /** Nothing is missing only when every parameter was extracted. */
  lemma {:induction false} NoneMissing(ps: seq<Param>, p: Params)
    requires Missing(ps, p) == []
    ensures forall j :: 0 <= j < |ps| ==> ps[j].nombre in p
    decreases |ps|
  {
    if |ps| > 0 {
      var front := ps[..|ps| - 1];
      NoneMissing(front, p);
      assert forall j :: 0 <= j < |front| ==> ps[j] == front[j];
    }
  }

  /** The `faltantes` loop. */
  method Faltantes(ps: seq<Param>, p: Params) returns (faltantes: seq<Param>)
    ensures faltantes == Missing(ps, p)
  {
    faltantes := [];
    var i := 0;
    while i < |ps|
      invariant 0 <= i <= |ps|
      invariant faltantes == Missing(ps[..i], p)
    {
      assert ps[..i + 1][..i] == ps[..i];
      if ps[i].nombre !in p {
        faltantes := faltantes + [ps[i]];
      }
      i := i + 1;
    }
    assert ps[..i] == ps;
  }

  /** The questions the backend words itself, by parameter name. */
  const FixedQuestions: seq<(string, string)> := [
    ("peso", "¿Cuál es tu peso en kg?"),
    ("altura", "¿Cuál es tu altura en metros? (ejemplo: 1.75)"),
    ("edad", "¿Cuántos años tienes?"),
    ("sexo", "¿Cuál es tu sexo? (M para masculino, F para femenino)"),
    ("cmb", "¿Cuál es tu circunferencia media del brazo en cm? (medida alrededor del punto medio del brazo)"),
    ("pct", "¿Cuál es tu pliegue cutáneo tricipital en mm? (pellizco en la parte posterior del brazo)"),
    ("pcb", "¿Cuál es tu pliegue cutáneo bicipital en mm? (pellizco en la parte frontal del brazo)"),
    ("pcse", "¿Cuál es tu pliegue cutáneo subescapular en mm? (pellizco debajo del omóplato)"),
    ("pci", "¿Cuál es tu pliegue cutáneo ilíaco en mm? (pellizco en la cresta ilíaca/cadera)")]

  /** The question for one parameter: the backend's own wording for the nine it knows, the registry's otherwise. */
  function Question(q: Param): (r: string)
    ensures forall k :: 0 <= k < |FixedQuestions| && FixedQuestions[k].0 == q.nombre ==> r == FixedQuestions[k].1
    ensures q.nombre !in ParamNames ==> r == q.pregunta
  {
    if q.nombre == "peso" then "¿Cuál es tu peso en kg?"
    else if q.nombre == "altura" then "¿Cuál es tu altura en metros? (ejemplo: 1.75)"
    else if q.nombre == "edad" then "¿Cuántos años tienes?"
    else if q.nombre == "sexo" then "¿Cuál es tu sexo? (M para masculino, F para femenino)"
    else if q.nombre == "cmb" then "¿Cuál es tu circunferencia media del brazo en cm? (medida alrededor del punto medio del brazo)"
    else if q.nombre == "pct" then "¿Cuál es tu pliegue cutáneo tricipital en mm? (pellizco en la parte posterior del brazo)"
    else if q.nombre == "pcb" then "¿Cuál es tu pliegue cutáneo bicipital en mm? (pellizco en la parte frontal del brazo)"
    else if q.nombre == "pcse" then "¿Cuál es tu pliegue cutáneo subescapular en mm? (pellizco debajo del omóplato)"
    else if q.nombre == "pci" then "¿Cuál es tu pliegue cutáneo ilíaco en mm? (pellizco en la cresta ilíaca/cadera)"
    else q.pregunta
  }

  /** The backend words its own question for exactly the parameters its extractor knows. */
  lemma FixedQuestionsCoverParams()
    ensures forall n :: n in ParamNames <==> exists k :: 0 <= k < |FixedQuestions| && FixedQuestions[k].0 == n
  {
    forall n | n in ParamNames ensures exists k :: 0 <= k < |FixedQuestions| && FixedQuestions[k].0 == n {
      if n == "peso" { assert FixedQuestions[0].0 == n; }
      else if n == "altura" { assert FixedQuestions[1].0 == n; }
      else if n == "edad" { assert FixedQuestions[2].0 == n; }
      else if n == "sexo" { assert FixedQuestions[3].0 == n; }
      else if n == "cmb" { assert FixedQuestions[4].0 == n; }
      else if n == "pct" { assert FixedQuestions[5].0 == n; }
      else if n == "pcb" { assert FixedQuestions[6].0 == n; }
      else if n == "pcse" { assert FixedQuestions[7].0 == n; }
      else { assert FixedQuestions[8].0 == n; }
    }
  }

  // ---------------------------------------------------------------------
  // The reply

  /** Words that mark a request for some calculation. */
  const CalcTerms: seq<string> := ["calcular", "calculo", "cálculo", "formula", "fórmula",
                                   "densidad corporal", "masa grasa", "masa magra", "porcentaje grasa",
                                   "tasa metabolica", "gasto energetico", "requerimiento", "tmb", "get"]

  const Apology := "Lo siento, no tengo información específica sobre ese cálculo en mi base de datos de fórmulas. Puedo ayudarte con: IMC, composición corporal completa, TMB (Harris-Benedict), agua corporal, y requerimiento de proteína. ¿Te interesa alguno de estos?"

  /** What the endpoint answers. */
  datatype Reply =
    | NoPrompt                          // 400 "No prompt provided"
    | Ask(question: string)             // one question, for the first missing parameter
    | Imc(imc: ImcOutcome)
    | Composition(composition: CompOutcome)
    | UnknownCalculation(message: string)
    | Delegate                          // the language model answers

  /** The interpretation rows of the registry's `imc` formula, when it has one. */
  function ImcBands(reg: Registry): Option<seq<Band>> {
    match Get(reg, ImcKey)
    case Some(f) => Some(f.interpretacion)
    case None => None
  }

  /** `not formula_key`. */
  predicate NoKey(d: Detection) {
    d.key.None? || d.key.value == ""
  }

  /** The tail of the endpoint once no calculation has answered. */
  function Tail(prompt: string, d: Detection): (r: Reply)
    ensures r.UnknownCalculation? <==> AnyIn(Lower(prompt), CalcTerms) && NoKey(d)
    ensures r.UnknownCalculation? || r.Delegate?
  {
    if AnyIn(Lower(prompt), CalcTerms) && NoKey(d) then UnknownCalculation(Apology) else Delegate
  }

  /** The parameters extracted for the stripped prompt `prompt`. */
  function TurnParams(prompt: string): Params {
    ExtractParams(prompt, EsNuevaSolicitud(LastUserLine(prompt)))
  }

  /** The reply once the prompt is non-empty, for its detection `d` and the parameters `params` extracted from it. */
  function Decide(prompt: string, d: Detection, params: Params, reg: Registry, pi: real, log10: real -> real): (r: Reply)
    requires pi > 0.0 && (d.formula.Some? ==> d.key.Some?)
    ensures !r.NoPrompt?
    ensures r.Ask? <==> d.formula.Some? && Missing(d.formula.value.parametros, params) != []
    ensures r.Ask? ==> r.question == Question(Missing(d.formula.value.parametros, params)[0])
    ensures r.Imc? <==> d.formula.Some? && Missing(d.formula.value.parametros, params) == [] && Lower(d.key.value) == ImcKey
    ensures r.Imc? ==> r.imc == EvalImc(params, d.formula.value.interpretacion)
    ensures r.Composition? <==> d.formula.Some? && Missing(d.formula.value.parametros, params) == []
                                && Lower(d.key.value) == CompositionKey
    ensures r.Composition? ==> r.composition == EvalComposition(params, d.formula.value.interpretacion, ImcBands(reg), pi, log10)
    ensures r.UnknownCalculation? <==> AnyIn(Lower(prompt), CalcTerms) && NoKey(d)
                                       && (d.formula.Some? ==> Missing(d.formula.value.parametros, params) == [])
  {
    if d.formula.Some? then
      var f := d.formula.value;
      var faltan := Missing(f.parametros, params);
      if faltan != [] then Ask(Question(faltan[0]))
      else if Lower(d.key.value) == ImcKey then Imc(EvalImc(params, f.interpretacion))
      else if Lower(d.key.value) == CompositionKey then
        Composition(EvalComposition(params, f.interpretacion, ImcBands(reg), pi, log10))
      else Tail(prompt, d)
    else Tail(prompt, d)
  }

  /**
   * The endpoint's decision for the raw `prompt` field: an empty prompt is
   * refused; a detected formula asks for its first missing parameter or
   * runs its calculation; otherwise the apology or the language model.
   */
  function Respond(raw: string, reg: Registry, pi: real, log10: real -> real): Reply
    requires pi > 0.0
  {
    var prompt := PyStrip(raw);
    if prompt == "" then NoPrompt
    else Decide(prompt, Detect(prompt, reg), TurnParams(prompt), reg, pi, log10)
  }

  /** The endpoint, step by step as the backend runs it. */
  method Chat(raw: string, reg: Registry, pi: real, log10: real -> real) returns (reply: Reply)
    requires pi > 0.0
    ensures reply == Respond(raw, reg, pi, log10)
  {
    var prompt := PyStrip(raw);
    if prompt == "" {
      return NoPrompt;
    }
    var d := Detect(prompt, reg);
    if d.formula.Some? {
      var formula := d.formula.value;
      var ultimo := FindLastUserMessage(Lines(prompt));
      var nueva := NuevaSolicitud(ultimo);
      var params := ExtraerParametrosUsuario(prompt, nueva);
      var faltantes := Faltantes(formula.parametros, params);
      if |faltantes| > 0 {
        return Ask(Question(faltantes[0]));
      }
      var key := Lower(d.key.value);
      if key == ImcKey {
        return Imc(EvalImc(params, formula.interpretacion));
      } else if key == CompositionKey {
        return Composition(EvalComposition(params, formula.interpretacion, ImcBands(reg), pi, log10));
      }
    }
    reply := Tail(prompt, d);
  }

  // ---------------------------------------------------------------------
  // Properties of the reply

  /** An empty or blank prompt, and only that, is refused. */
  lemma NoPromptIff(raw: string, reg: Registry, pi: real, log10: real -> real)
    requires pi > 0.0
    ensures Respond(raw, reg, pi, log10).NoPrompt? <==> PyStrip(raw) == ""
  {
  }

  /**
   * With a detected formula, the reply is a question exactly when some
   * registry parameter was not extracted, and the question is the one for
   * the first such parameter in registry order.
   */
  lemma AsksFirstMissing(raw: string, reg: Registry, pi: real, log10: real -> real)
    requires pi > 0.0
    requires PyStrip(raw) != "" && Detect(PyStrip(raw), reg).formula.Some?
    ensures var prompt := PyStrip(raw);
      var ps := Detect(prompt, reg).formula.value.parametros;
      var params := TurnParams(prompt);
      && (Respond(raw, reg, pi, log10).Ask? <==> exists x :: x in ps && x.nombre !in params)
      && (Respond(raw, reg, pi, log10).Ask? ==>
            exists i :: 0 <= i < |ps| && ps[i].nombre !in params && (forall j :: 0 <= j < i ==> ps[j].nombre in params)
                        && Respond(raw, reg, pi, log10) == Ask(Question(ps[i])))
  {
    var prompt := PyStrip(raw);
    var ps := Detect(prompt, reg).formula.value.parametros;
    var params := TurnParams(prompt);
    MissingSome(ps, params);
    if Missing(ps, params) != [] {
      MissingFirst(ps, params);
    }
  }

  /** Something is missing exactly when some registry parameter's name was not extracted. */
  lemma MissingSome(ps: seq<Param>, p: Params)
    ensures Missing(ps, p) != [] <==> exists x :: x in ps && x.nombre !in p
  {
    MissingMembers(ps, p);
    var faltan := Missing(ps, p);
    if faltan != [] {
      assert faltan[0] in faltan;
    }
  }

  /**
   * The apology is given exactly when the prompt names a calculation, no
   * key was detected, and no detected formula asked a question first.
   */
  lemma ApologyIff(raw: string, reg: Registry, pi: real, log10: real -> real)
    requires pi > 0.0
    ensures var prompt := PyStrip(raw);
      var d := Detect(prompt, reg);
      Respond(raw, reg, pi, log10).UnknownCalculation? <==>
        prompt != "" && AnyIn(Lower(prompt), CalcTerms) && NoKey(d)
        && (d.formula.Some? ==> Missing(d.formula.value.parametros, TurnParams(prompt)) == [])
  {
  }

  /** Every name of `names` is the name of some parameter of `ps`. */
  predicate Lists(ps: seq<Param>, names: set<string>) {
    forall n :: n in names ==> exists x :: x in ps && x.nombre == n
  }

  /** Nothing missing means every listed name was extracted. */
  lemma NothingMissing(ps: seq<Param>, params: Params, names: set<string>)
    requires Lists(ps, names) && Missing(ps, params) == []
    ensures forall n :: n in names ==> n in params
  {
    MissingMembers(ps, params);
    forall n | n in names ensures n in params {
      var x :| x in ps && x.nombre == n;
      assert x !in Missing(ps, params);
    }
  }

  /** Nothing missing under a composition key runs the composition calculation. */
  lemma DecidesComposition(prompt: string, d: Detection, params: Params, reg: Registry, pi: real, log10: real -> real)
    requires pi > 0.0 && d.formula.Some? && d.key.Some? && Lower(d.key.value) == CompositionKey
    requires Missing(d.formula.value.parametros, params) == []
    ensures Decide(prompt, d, params, reg, pi, log10)
            == Composition(EvalComposition(params, d.formula.value.interpretacion, ImcBands(reg), pi, log10))
  {
  }

  /** The composition branch on well-formed parameters: no guard error, and failure only for a zero density or no `imc` formula. */
  lemma DecideComposition(prompt: string, d: Detection, params: Params, reg: Registry, pi: real, log10: real -> real)
    requires pi > 0.0 && d.formula.Some? && d.key.Some? && Lower(d.key.value) == CompositionKey
    requires WellFormed(params) && Lists(d.formula.value.parametros, ParamNames - {"sexo"})
    ensures var r := Decide(prompt, d, params, reg, pi, log10);
      && (r.Ask? || r.Composition?)
      && (r.Composition? ==>
            && !r.composition.CompGuardError? && ReadInputs(params).Some?
            && (r.composition.CompFailure? <==> Densidad(ReadInputs(params).value, log10) == 0.0 || ImcBands(reg).None?))
  {
    var f := d.formula.value;
    if Missing(f.parametros, params) == [] {
      NothingMissing(f.parametros, params, ParamNames - {"sexo"});
      CompositionOnExtracted(params, f.interpretacion, ImcBands(reg), pi, log10);
      DecidesComposition(prompt, d, params, reg, pi, log10);
    }
  }

  /** The IMC branch on well-formed parameters computes whenever it is reached. */
  lemma DecideImc(prompt: string, d: Detection, params: Params, reg: Registry, pi: real, log10: real -> real)
    requires pi > 0.0 && d.formula.Some? && d.key.Some? && Lower(d.key.value) == ImcKey
    requires WellFormed(params) && Lists(d.formula.value.parametros, {"peso", "altura"})
    ensures var r := Decide(prompt, d, params, reg, pi, log10);
      (r.Ask? || r.Imc?) && (r.Imc? ==> r.imc.ImcDone?)
  {
    if Missing(d.formula.value.parametros, params) == [] {
      NothingMissing(d.formula.value.parametros, params, {"peso", "altura"});
      ImcHeightErrorUnreachable(params, d.formula.value.interpretacion);
    }
  }

  /**
   * From the chat, a composition formula whose parameters include every
   * measurement never reaches the guard error, and fails only on a zero
   * density or a registry without an `imc` formula.
   */
  lemma ChatCompositionNoGuard(raw: string, reg: Registry, pi: real, log10: real -> real)
    requires pi > 0.0
    requires PyStrip(raw) != ""
    requires var d := Detect(PyStrip(raw), reg);
      d.formula.Some? && Lower(d.key.value) == CompositionKey && Lists(d.formula.value.parametros, ParamNames - {"sexo"})
    ensures Respond(raw, reg, pi, log10).Ask? || Respond(raw, reg, pi, log10).Composition?
    ensures Respond(raw, reg, pi, log10).Composition? ==>
      var c := Respond(raw, reg, pi, log10).composition;
      && !c.CompGuardError? && ReadInputs(TurnParams(PyStrip(raw))).Some?
      && (c.CompFailure? <==> Densidad(ReadInputs(TurnParams(PyStrip(raw))).value, log10) == 0.0 || ImcBands(reg).None?)
  {
    var prompt := PyStrip(raw);
    ExtractOk(ScanText(prompt, EsNuevaSolicitud(LastUserLine(prompt))));
    DecideComposition(prompt, Detect(prompt, reg), TurnParams(prompt), reg, pi, log10);
  }

  /** From the chat, an IMC formula asking for weight and height always computes once nothing is missing. */
  lemma ChatImcComputes(raw: string, reg: Registry, pi: real, log10: real -> real)
    requires pi > 0.0
    requires PyStrip(raw) != ""
    requires var d := Detect(PyStrip(raw), reg);
      d.formula.Some? && Lower(d.key.value) == ImcKey && Lists(d.formula.value.parametros, {"peso", "altura"})
    ensures Respond(raw, reg, pi, log10).Ask? || Respond(raw, reg, pi, log10).Imc?
    ensures Respond(raw, reg, pi, log10).Imc? ==> Respond(raw, reg, pi, log10).imc.ImcDone?
  {
    var prompt := PyStrip(raw);
    ExtractOk(ScanText(prompt, EsNuevaSolicitud(LastUserLine(prompt))));
    DecideImc(prompt, Detect(prompt, reg), TurnParams(prompt), reg, pi, log10);
  }
}
