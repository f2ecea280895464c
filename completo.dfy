/**
 * The copy of the engine in the script `test_completo.py`.
 *
 * Its detector has a shorter whole-dialogue fallback than the backend's:
 * a composition phrase, or both the arm-circumference and the skinfold
 * question terms, and then the IMC phrases. Its extractor looks only for
 * peso, altura, edad and sexo; peso and altura have patterns, and each of
 * the four has its own next-line fallback that runs only while that
 * parameter is still missing.
 */
module TestCompleto {
  import opened Options
  import opened Text
  import opened Scan
  import opened Formulas
  import opened ChatDetector
  import opened Extraction
  import opened ChatFlow

  // ---------------------------------------------------------------------
  // Detection

  /** The whole-dialogue test for a composition in progress. */
  predicate CompositionInProgress(pl: string) {
    Contains(pl, "composicion corporal") || Contains(pl, "composición corporal") || Contains(pl, "análisis corporal")
    || (Contains(pl, "circunferencia media del brazo") && Contains(pl, "pliegue cutáneo"))
  }

  /** The script's `detectar_formula_en_prompt`. */
  function DetectFormula(prompt: string, reg: Registry): (r: Detection)
    ensures r.key.None? ==> r.formula.None?
    ensures r.key.Some? ==> r.key.value in {ImcKey, CompositionKey}
  {
    var pl := Lower(prompt);
    var u := LastUserLine(prompt);
    if u != "" && AnyIn(u, CompAliases) then Found(reg, CompositionKey)
    else if u != "" && AnyIn(u, ImcAliases) then Found(reg, ImcKey)
    else if CompositionInProgress(pl) then Found(reg, CompositionKey)
    else if AnyIn(pl, ImcAliases) then Found(reg, ImcKey)
    else Detection(None, None)
  }

  /**
   * Composition is chosen for a composition phrase in the last user line,
   * or, failing an IMC phrase there, for the whole-dialogue test; IMC for
   * an IMC phrase anywhere otherwise; nothing when neither applies.
   */
  lemma DetectFormulaCases(prompt: string, reg: Registry)
    ensures var pl := Lower(prompt);
      var u := LastUserLine(prompt);
      && (DetectFormula(prompt, reg).key == Some(CompositionKey) <==>
            AnyIn(u, CompAliases) || (!AnyIn(u, ImcAliases) && CompositionInProgress(pl)))
      && (DetectFormula(prompt, reg).key == Some(ImcKey) <==>
            !AnyIn(u, CompAliases) && (AnyIn(u, ImcAliases) || (!CompositionInProgress(pl) && AnyIn(pl, ImcAliases))))
      && (DetectFormula(prompt, reg).key.None? <==>
            !AnyIn(u, CompAliases) && !CompositionInProgress(pl) && !AnyIn(pl, ImcAliases))
  {
    var u := LastUserLine(prompt);
    LastUserLineInPrompt(prompt);
    AnyInSub(Lower(prompt), u, ImcAliases);
    AnyInNonEmpty(u, CompAliases);
    AnyInNonEmpty(u, ImcAliases);
  }

  /**
   * The script's new-request flag: computed only once a formula was
   * detected, with the same exemption for plain answers as the backend.
   */
  predicate ScriptFlag(prompt: string, reg: Registry) {
    DetectFormula(prompt, reg).key.Some? && EsNuevaSolicitud(LastUserLine(prompt))
  }

  /**
   * A composition phrase in the last user line is a new composition
   * request: composition is detected and the flag is set, so the
   * parameters are read from the last three lines only.
   */
  lemma NewCompositionRequest(prompt: string, reg: Registry)
    requires AnyIn(LastUserLine(prompt), CompAliases)
    ensures DetectFormula(prompt, reg).key == Some(CompositionKey)
    ensures ScriptFlag(prompt, reg)
  {
    var u := LastUserLine(prompt);
    AnyInNonEmpty(u, CompAliases);
    AnyInIff(u, CompAliases);
    var k :| 0 <= k < |CompAliases| && Contains(u, CompAliases[k]);
    assert NuevasSolicitudes[k] == CompAliases[k];
    AnyInIff(u, NuevasSolicitudes);
    NuevaSolicitudIsPhrase(u);
  }

  /** The last line of the first test's dialogue is a user line naming composition. */
  lemma CompositionLine(prompt: string)
    requires |Lines(prompt)| > 0 && Last(Lines(prompt)) == "user: composicion corporal"
    ensures LastUserLine(prompt) == "composicion corporal"
    ensures AnyIn(LastUserLine(prompt), CompAliases)
  {
    var s := Last(Lines(prompt));
    UserComposition(s);
    assert LastUserLine(prompt) == UserText(s);
    CompositionAlias(UserText(s));
  }

  /** The line "user: composicion corporal" is a user line whose text is "composicion corporal". */
  lemma UserComposition(s: string)
    requires s == "user: composicion corporal"
    ensures IsUserLine(s) && UserText(s) == "composicion corporal"
  {
    TrimEnds(s, IsPySpace);
    LowerCaseLine(s);
    var m := Lower(PyStrip(s));
    assert m == s;
    assert StartsWith(m, "user:");
    assert m[5..] == " composicion corporal";
    OneSpaceStripped(m[5..]);
  }

  /** The line is already in lower case. */
  lemma LowerCaseLine(s: string)
    requires s == "user: composicion corporal"
    ensures Lower(s) == s
  {
  }

  /** A single leading space is stripped. */
  lemma OneSpaceStripped(t: string)
    requires t == " composicion corporal"
    ensures PyStrip(t) == "composicion corporal"
  {
    assert TrimLeft(t, IsPySpace) == TrimLeft(t[1..], IsPySpace);
    assert t[1..] == "composicion corporal";
    TrimEnds(t[1..], IsPySpace);
  }

  /** "composicion corporal" is the first composition phrase. */
  lemma CompositionAlias(u: string)
    requires u == "composicion corporal"
    ensures AnyIn(u, CompAliases)
  {
    ContainsSelf(u);
    assert Contains(u, CompAliases[0]);
    AnyInIff(u, CompAliases);
  }

  /**
   * The first test's situation: after a finished IMC exchange the user
   * asks for a body composition, so the composition is detected and the
   * weight and height given for the IMC (further up than the last three
   * lines) are not reused; the parameters are those of the last three lines.
   */
  lemma ChangeOfFormula(prompt: string, reg: Registry)
    requires |Lines(prompt)| > 0 && Last(Lines(prompt)) == "user: composicion corporal"
    ensures DetectFormula(prompt, reg).key == Some(CompositionKey)
    ensures ScriptFlag(prompt, reg)
    ensures ExtractCompleto(prompt, ScriptFlag(prompt, reg)) == ExtractCompleto(prompt, true)
  {
    CompositionLine(prompt);
    NewCompositionRequest(prompt, reg);
  }

  /** With the flag set, lines before the last three do not matter. */
  lemma WindowOnly(p1: string, p2: string)
    requires LastN(Lines(p1), 3) == LastN(Lines(p2), 3)
    ensures ExtractCompleto(p1, true) == ExtractCompleto(p2, true)
  {
    assert ScanText(p1, true) == ScanText(p2, true);
  }

  /** A bare number as the last user text never sets the flag, so an answer is read against the whole dialogue. */
  lemma AnswerKeepsDialogue(prompt: string, reg: Registry)
    requires IsBareNumber(PyStrip(LastUserLine(prompt)))
    ensures !ScriptFlag(prompt, reg)
    ensures ExtractCompleto(prompt, ScriptFlag(prompt, reg)) == CompletoParams(Lower(prompt))
  {
  }

  // ---------------------------------------------------------------------
  // Extraction

  /** `(\d{1,2}[\.,]\d{1,2})\s*(?:m|metros?)` and `altura.*?(\d{1,2}[\.,]\d{1,2})`. */
  const AlturaMetrePatterns: seq<Pattern> := [NumUnit(Metres, ["m", "metros", "metro"]), KwNum("altura", Metres)]

  /** The patterns accept metres only. */
  const MetreRule := Within(1.0, 2.5)

  /** The first value in `vs` from index `i` on. */
  function FirstSome<T>(vs: seq<Option<T>>, i: nat): (r: Option<T>)
    requires i <= |vs|
    ensures r.None? <==> forall j :: i <= j < |vs| ==> vs[j].None?
    decreases |vs| - i
  {
    if i == |vs| then None else if vs[i].Some? then vs[i] else FirstSome(vs, i + 1)
  }

  /** The first value is the one at the first index that holds one. */
  lemma {:induction false} FirstSomeAt<T>(vs: seq<Option<T>>, i: nat, j: nat)
    requires i <= j < |vs| && vs[j].Some?
    requires forall k :: i <= k < j ==> vs[k].None?
    ensures FirstSome(vs, i) == vs[j]
    decreases j - i
  {
    if i < j {
      FirstSomeAt(vs, i + 1, j);
    }
  }

  /** The first value is one of the values. */
  lemma {:induction false} FirstSomeIn<T>(vs: seq<Option<T>>, i: nat)
    requires i <= |vs|
    ensures FirstSome(vs, i).Some? ==> exists j :: i <= j < |vs| && vs[j] == FirstSome(vs, i)
    decreases |vs| - i
  {
    if i < |vs| && vs[i].None? {
      FirstSomeIn(vs, i + 1);
    }
  }

  /** The first number of `line` (stripped) with the spec `num` that the rule accepts. */
  function LineValue(line: string, num: NumSpec, rule: Rule): (r: Option<real>)
    ensures r.Some? ==> InBounds(rule, r.value)
  {
    FirstAccepted(FindAll(PyStrip(line), Bare(num), 0), rule)
  }

  /** What line `j` reads: the value on the next line when line `j` mentions `kw`. */
  function ReadAt(lines: seq<string>, j: nat, kw: string, num: NumSpec, rule: Rule): Option<real>
    requires j < |lines|
  {
    if Contains(lines[j], kw) && j + 1 < |lines| then LineValue(lines[j + 1], num, rule) else None
  }

  /** What every line reads. */
  function Readings(lines: seq<string>, kw: string, num: NumSpec, rule: Rule): (r: seq<Option<real>>)
    ensures |r| == |lines|
    ensures forall j :: 0 <= j < |lines| ==> r[j] == ReadAt(lines, j, kw, num, rule)
  {
    seq(|lines|, j requires 0 <= j < |lines| => ReadAt(lines, j, kw, num, rule))
  }

  /** Line `j` mentions `kw` and the next line holds an accepted number. */
  predicate ReadsAt(lines: seq<string>, j: int, kw: string, num: NumSpec, rule: Rule) {
    0 <= j < |lines| && ReadAt(lines, j, kw, num, rule).Some?
  }

  /** The next-line fallback of one parameter: the value under the first line that reads one. */
  function NextLineValue(lines: seq<string>, kw: string, num: NumSpec, rule: Rule): (r: Option<real>)
    ensures r.Some? ==> InBounds(rule, r.value)
    ensures r.None? <==> forall j :: 0 <= j < |lines| ==> !ReadsAt(lines, j, kw, num, rule)
  {
    var vs := Readings(lines, kw, num, rule);
    assert forall j :: 0 <= j < |lines| ==> (ReadsAt(lines, j, kw, num, rule) <==> vs[j].Some?);
    FirstSomeIn(vs, 0);
    FirstSome(vs, 0)
  }

  /** The fallback's value is the one under the first line that reads one. */
  lemma NextLineValueAt(lines: seq<string>, kw: string, num: NumSpec, rule: Rule)
    ensures forall j :: ReadsAt(lines, j, kw, num, rule) && (forall k :: 0 <= k < j ==> !ReadsAt(lines, k, kw, num, rule))
                        ==> NextLineValue(lines, kw, num, rule) == LineValue(lines[j + 1], num, rule)
  {
    var vs := Readings(lines, kw, num, rule);
    assert forall k :: 0 <= k < |lines| ==> (ReadsAt(lines, k, kw, num, rule) <==> vs[k].Some?);
    forall j | ReadsAt(lines, j, kw, num, rule) && (forall k :: 0 <= k < j ==> !ReadsAt(lines, k, kw, num, rule))
      ensures NextLineValue(lines, kw, num, rule) == LineValue(lines[j + 1], num, rule)
    {
      FirstSomeAt(vs, 0, j);
    }
  }

  /** `re.search(r'\b([MFmf])\b', s).group(1).upper()` is M or F. */
  lemma LoneMFUpper(s: string)
    ensures FirstLoneMF(s).Some? ==> FirstLoneMF(s).value == 'M' || FirstLoneMF(s).value == 'F'
  {
    var ms := LoneMF(s, 0);
    if |ms| > 0 {
      assert IsMF(ms[0][0]);
    }
  }

  /** What line `j` reads for sexo: the lone letter of the next line when line `j` mentions sexo. */
  function SexReadAt(lines: seq<string>, j: nat): (r: Option<char>)
    requires j < |lines|
    ensures r.Some? ==> r.value == 'M' || r.value == 'F'
  {
    if Contains(lines[j], "sexo") && j + 1 < |lines| then
      LoneMFUpper(PyStrip(lines[j + 1]));
      FirstLoneMF(PyStrip(lines[j + 1]))
    else None
  }

  /** What every line reads for sexo. */
  function SexReadings(lines: seq<string>): (r: seq<Option<char>>)
    ensures |r| == |lines|
    ensures forall j :: 0 <= j < |lines| ==> r[j] == SexReadAt(lines, j)
  {
    seq(|lines|, j requires 0 <= j < |lines| => SexReadAt(lines, j))
  }

  /** Line `j` mentions sexo and the next line holds a lone m/f letter. */
  predicate SexAt(lines: seq<string>, j: int) {
    0 <= j < |lines| && SexReadAt(lines, j).Some?
  }

  /** The sexo fallback: the upper-cased lone letter under the first line that has one. */
  function NextLineSex(lines: seq<string>): (r: Option<char>)
    ensures r.Some? ==> r.value == 'M' || r.value == 'F'
    ensures r.None? <==> forall j :: 0 <= j < |lines| ==> !SexAt(lines, j)
  {
    var vs := SexReadings(lines);
    assert forall j :: 0 <= j < |lines| ==> (SexAt(lines, j) <==> vs[j].Some?);
    FirstSomeIn(vs, 0);
    FirstSome(vs, 0)
  }

  /** The sexo fallback's letter is the one under the first line that has one. */
  lemma NextLineSexAt(lines: seq<string>)
    ensures forall j :: SexAt(lines, j) && (forall k :: 0 <= k < j ==> !SexAt(lines, k))
                        ==> NextLineSex(lines) == FirstLoneMF(PyStrip(lines[j + 1]))
  {
    var vs := SexReadings(lines);
    assert forall k :: 0 <= k < |lines| ==> (SexAt(lines, k) <==> vs[k].Some?);
    forall j | SexAt(lines, j) && (forall k :: 0 <= k < j ==> !SexAt(lines, k))
      ensures NextLineSex(lines) == FirstLoneMF(PyStrip(lines[j + 1]))
    {
      FirstSomeAt(vs, 0, j);
    }
  }

  /** The sexo fallback finds a letter exactly when some line has one. */
  lemma NextLineSexSome(lines: seq<string>)
    ensures NextLineSex(lines).Some? <==> exists j :: SexAt(lines, j)
  {
    if NextLineSex(lines).Some? {
      var j :| 0 <= j < |lines| && SexAt(lines, j);
    }
  }

  /** `a` when it holds a value, else `b`. */
  function OrElse<T>(a: Option<T>, b: Option<T>): (r: Option<T>)
    ensures a.Some? ==> r == a
    ensures a.None? ==> r == b
  {
    if a.Some? then a else b
  }

  /** The weight: the patterns first, then the next-line fallback. */
  function PesoOf(t: string): Option<real> {
    OrElse(FirstMatch(t, PesoPatterns, PesoRule), NextLineValue(Split(t, '\n'), "peso", Num3, PesoRule))
  }

  /** The height: the metre patterns first, then the next-line fallback, which also reads centimetres. */
  function AlturaOf(t: string): Option<real> {
    OrElse(FirstMatch(t, AlturaMetrePatterns, MetreRule), NextLineValue(Split(t, '\n'), "altura", Num3, Height))
  }

  /** The age: the next-line fallback only. */
  function EdadOf(t: string): Option<real> {
    NextLineValue(Split(t, '\n'), "años", Int3, EdadRule)
  }

  /** The sex: the next-line fallback only. */
  function SexoOf(t: string): Option<char> {
    NextLineSex(Split(t, '\n'))
  }

  /** The parameters found, stored under their names. */
  function Assemble(peso: Option<real>, altura: Option<real>, edad: Option<real>, sexo: Option<char>): (p: Params)
    ensures "peso" in p <==> peso.Some?
    ensures "altura" in p <==> altura.Some?
    ensures "edad" in p <==> edad.Some?
    ensures "sexo" in p <==> sexo.Some?
    ensures p.Keys <= {"peso", "altura", "edad", "sexo"}
    ensures peso.Some? ==> p["peso"] == Num(peso.value)
    ensures altura.Some? ==> p["altura"] == Num(altura.value)
    ensures edad.Some? ==> p["edad"] == Num(edad.value)
    ensures sexo.Some? ==> p["sexo"] == Letter(sexo.value)
  {
    var p := With(With(With(map[], "peso", AsNum(peso)), "altura", AsNum(altura)), "edad", AsNum(edad));
    if sexo.Some? then p["sexo" := Letter(sexo.value)] else p
  }

  /** Values in their ranges make a well-formed parameter map. */
  lemma AssembleOk(peso: Option<real>, altura: Option<real>, edad: Option<real>, sexo: Option<char>)
    requires peso.Some? ==> 30.0 <= peso.value <= 200.0
    requires altura.Some? ==> 1.0 <= altura.value <= 2.5
    requires edad.Some? ==> 10.0 <= edad.value <= 120.0 && edad.value.Floor as real == edad.value
    requires sexo.Some? ==> sexo.value == 'M' || sexo.value == 'F'
    ensures WellFormed(Assemble(peso, altura, edad, sexo))
  {
    var p0: Params := map[];
    var p1 := With(p0, "peso", AsNum(peso));
    WithOk(p0, "peso", AsNum(peso));
    var p2 := With(p1, "altura", AsNum(altura));
    WithOk(p1, "altura", AsNum(altura));
    var p3 := With(p2, "edad", AsNum(edad));
    WithOk(p2, "edad", AsNum(edad));
    if sexo.Some? {
      WithOk(p3, "sexo", Some(Letter(sexo.value)));
      assert Assemble(peso, altura, edad, sexo) == With(p3, "sexo", Some(Letter(sexo.value)));
    }
  }

  /** The four parameters of the lower-cased text `t`. */
  function CompletoParams(t: string): Params {
    Assemble(PesoOf(t), AlturaOf(t), EdadOf(t), SexoOf(t))
  }

  /** The script's `extraer_parametros_usuario`. */
  function ExtractCompleto(prompt: string, nueva: bool): Params {
    CompletoParams(ScanText(prompt, nueva))
  }

  /** The loop over the lines for one parameter, leaving at the first accepted value. */
  method NextLineLoop(lineas: seq<string>, kw: string, num: NumSpec, rule: Rule) returns (v: Option<real>)
    ensures v == NextLineValue(lineas, kw, num, rule)
  {
    ghost var vs := Readings(lineas, kw, num, rule);
    var i := 0;
    while i < |lineas|
      invariant 0 <= i <= |lineas|
      invariant FirstSome(vs, 0) == FirstSome(vs, i)
    {
      if Contains(lineas[i], kw) && i + 1 < |lineas| {
        var siguiente := PyStrip(lineas[i + 1]);
        v := FirstInRange(FindAll(siguiente, Bare(num), 0), rule);
        assert v == vs[i];
        if v.Some? {
          return;
        }
      } else {
        assert vs[i].None?;
      }
      i := i + 1;
    }
    v := None;
  }

  /** The sexo loop: the first lone letter on a line after a sexo line. */
  method NextLineSexLoop(lineas: seq<string>) returns (s: Option<char>)
    ensures s == NextLineSex(lineas)
  {
    ghost var vs := SexReadings(lineas);
    var i := 0;
    while i < |lineas|
      invariant 0 <= i <= |lineas|
      invariant FirstSome(vs, 0) == FirstSome(vs, i)
    {
      if Contains(lineas[i], "sexo") && i + 1 < |lineas| {
        var ms := LoneMF(PyStrip(lineas[i + 1]), 0);
        if |ms| > 0 {
          assert vs[i] == Some(UpperChar(ms[0][0]));
          return Some(UpperChar(ms[0][0]));
        }
        assert vs[i].None?;
      } else {
        assert vs[i].None?;
      }
      i := i + 1;
    }
    s := None;
  }

  /** The script's extractor, step by step. */
  method ExtraerParametrosUsuario(prompt: string, nueva: bool) returns (params: Params)
    ensures params == ExtractCompleto(prompt, nueva)
    ensures WellFormed(params)
  {
    var texto := Lower(prompt);
    if nueva {
      var lineas := Lines(prompt);
      var reciente := if |lineas| > 3 then lineas[|lineas| - 3..] else lineas;
      texto := Lower(Join(reciente, '\n'));
    }
    assert texto == ScanText(prompt, nueva);
    params := CompletoSearch(texto);
    CompletoOk(texto);
  }

  /** The four searches, in the order the script runs them. */
  method CompletoSearch(texto: string) returns (params: Params)
    ensures params == CompletoParams(texto)
  {
    var lineas := Split(texto, '\n');
    var peso := PesoSearch(texto, lineas);
    var altura := AlturaSearch(texto, lineas);
    var edad := NextLineLoop(lineas, "años", Int3, EdadRule);
    var sexo := NextLineSexLoop(lineas);
    params := Assemble(peso, altura, edad, sexo);
  }

  /** The weight patterns, then the weight fallback while no weight was found. */
  method PesoSearch(texto: string, lineas: seq<string>) returns (peso: Option<real>)
    requires lineas == Split(texto, '\n')
    ensures peso == PesoOf(texto)
  {
    peso := FirstPatternInRange(texto, PesoPatterns, PesoRule);
    if peso.None? {
      peso := NextLineLoop(lineas, "peso", Num3, PesoRule);
    }
  }

  /** The height patterns, then the height fallback while no height was found. */
  method AlturaSearch(texto: string, lineas: seq<string>) returns (altura: Option<real>)
    requires lineas == Split(texto, '\n')
    ensures altura == AlturaOf(texto)
  {
    altura := FirstPatternInRange(texto, AlturaMetrePatterns, MetreRule);
    if altura.None? {
      altura := NextLineLoop(lineas, "altura", Num3, Height);
    }
  }

  // ---------------------------------------------------------------------
  // Properties of the extractor

  /** The accepted integers of a line are whole. */
  lemma LineIntsWhole(line: string, rule: Rule)
    requires rule.Within?
    ensures LineValue(line, Int3, rule).Some? ==> LineValue(line, Int3, rule).value.Floor as real == LineValue(line, Int3, rule).value
  {
    IntsAreWhole(PyStrip(line), Bare(Int3), 0);
    WholeAccepted(FindAll(PyStrip(line), Bare(Int3), 0), rule);
  }

  /** Every value an integer fallback stores is whole. */
  lemma NextLineWhole(lines: seq<string>, kw: string, rule: Rule)
    requires rule.Within?
    ensures NextLineValue(lines, kw, Int3, rule).Some? ==>
              NextLineValue(lines, kw, Int3, rule).value.Floor as real == NextLineValue(lines, kw, Int3, rule).value
  {
    var vs := Readings(lines, kw, Int3, rule);
    FirstSomeIn(vs, 0);
    if FirstSome(vs, 0).Some? {
      var j :| 0 <= j < |vs| && vs[j] == FirstSome(vs, 0);
      LineIntsWhole(lines[j + 1], rule);
    }
  }

  /** Only peso, altura, edad and sexo are extracted, each in its range and sexo as M or F. */
  lemma CompletoOk(t: string)
    ensures WellFormed(CompletoParams(t))
    ensures CompletoParams(t).Keys <= {"peso", "altura", "edad", "sexo"}
  {
    NextLineWhole(Split(t, '\n'), "años", EdadRule);
    AssembleOk(PesoOf(t), AlturaOf(t), EdadOf(t), SexoOf(t));
  }

  /**
   * The age comes only from the line after a line mentioning `años`: it is
   * there exactly when some such line is followed by an accepted whole
   * number, and it is the first accepted number under the first such line.
   */
  lemma EdadFromNextLine(t: string, lines: seq<string>)
    requires lines == Split(t, '\n')
    ensures var p := CompletoParams(t);
      && ("edad" in p <==> exists j :: ReadsAt(lines, j, "años", Int3, EdadRule))
      && forall j :: ReadsAt(lines, j, "años", Int3, EdadRule) && (forall k :: 0 <= k < j ==> !ReadsAt(lines, k, "años", Int3, EdadRule))
                     ==> p["edad"] == Num(LineValue(lines[j + 1], Int3, EdadRule).value)
  {
    StoredFromNextLine(lines, "años", Int3, EdadRule, "edad", CompletoParams(t));
  }

  /** A parameter stored exactly as its next-line fallback reads it comes from the first line that reads one. */
  lemma StoredFromNextLine(lines: seq<string>, kw: string, num: NumSpec, rule: Rule, key: string, p: Params)
    requires var v := NextLineValue(lines, kw, num, rule);
      (key in p <==> v.Some?) && (v.Some? ==> p[key] == Num(v.value))
    ensures && (key in p <==> exists j :: ReadsAt(lines, j, kw, num, rule))
            && forall j :: ReadsAt(lines, j, kw, num, rule) && (forall k :: 0 <= k < j ==> !ReadsAt(lines, k, kw, num, rule))
                           ==> p[key] == Num(LineValue(lines[j + 1], num, rule).value)
  {
    NextLineValueAt(lines, kw, num, rule);
  }

  /** The sex comes only from the line after a line mentioning `sexo`, from the first such line that has a lone letter. */
  lemma SexoFromNextLine(t: string)
    ensures var lines := Split(t, '\n');
      var p := CompletoParams(t);
      && ("sexo" in p <==> exists j :: SexAt(lines, j))
      && forall j :: SexAt(lines, j) && (forall k :: 0 <= k < j ==> !SexAt(lines, k))
                     ==> p["sexo"] == Letter(FirstLoneMF(PyStrip(lines[j + 1])).value)
  {
    var lines := Split(t, '\n');
    NextLineSexAt(lines);
    NextLineSexSome(lines);
  }

  /**
   * The height patterns accept metres only: a height they find is in
   * 1.0–2.5 and wins; a height in centimetres is read only by the fallback,
   * under a line mentioning `altura`, and stored divided by 100.
   */
  lemma AlturaSources(t: string)
    ensures var p := CompletoParams(t);
      && (FirstMatch(t, AlturaMetrePatterns, MetreRule).Some? ==>
            p["altura"] == Num(FirstMatch(t, AlturaMetrePatterns, MetreRule).value))
      && ("altura" in p <==> FirstMatch(t, AlturaMetrePatterns, MetreRule).Some?
                              || exists j :: 0 <= j < |Split(t, '\n')| && ReadsAt(Split(t, '\n'), j, "altura", Num3, Height))
  {
  }

  /** A text of one line has no next line, so only the peso and altura patterns can find anything. */
  lemma OneLineOnlyPatterns(t: string)
    requires '\n' !in t
    ensures CompletoParams(t).Keys <= {"peso", "altura"}
    ensures "peso" in CompletoParams(t) <==> FirstMatch(t, PesoPatterns, PesoRule).Some?
    ensures "altura" in CompletoParams(t) <==> FirstMatch(t, AlturaMetrePatterns, MetreRule).Some?
  {
    SplitNoSep(t, '\n');
  }

  /** Each parameter's fallback runs on its own: a weight found by the patterns does not stop the height fallback. */
  lemma FallbacksIndependent(t: string)
    ensures var p := CompletoParams(t);
      && ("peso" in p <==> FirstMatch(t, PesoPatterns, PesoRule).Some?
                            || NextLineValue(Split(t, '\n'), "peso", Num3, PesoRule).Some?)
      && ("altura" in p <==> FirstMatch(t, AlturaMetrePatterns, MetreRule).Some?
                              || NextLineValue(Split(t, '\n'), "altura", Num3, Height).Some?)
  {
  }
}
