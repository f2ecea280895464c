/**
 * Formula detection in the chat backend (`detectar_formula_en_prompt`).
 *
 * The prompt is the whole dialogue, one message per line, each line
 * starting with `user:` or `ai:`. The detector first looks at the last
 * user line, then at the whole lower-cased prompt.
 */
module ChatDetector {
  import opened Options
  import opened Text
  import opened Formulas

  const CompositionKey := "composicion_corporal"
  const ImcKey := "imc"

  /** Phrases in the last user line that start a body-composition request. */
  const CompAliases: seq<string> := ["composicion corporal", "composición corporal", "analisis corporal", "análisis corporal"]

  /** Phrases that start an IMC request. */
  const ImcAliases: seq<string> := ["calcular imc", "calcula imc", "imc", "indice de masa corporal",
                                    "índice de masa corporal", "calcular mi imc", "calcula mi imc"]

  /** Terms of the body-composition questions; any of them in the dialogue means a composition is in progress. */
  const CompQuestionTerms: seq<string> := ["circunferencia media del brazo", "pliegue cutáneo", "tricipital",
                                           "bicipital", "subescapular", "ilíaco", "cmb", "pct", "pcb", "pcse", "pci"]

  /** The term map of the last resort, in its insertion order. */
  const TermMap: seq<(string, string)> := [
    ("imc", "imc"), ("indice de masa corporal", "imc"), ("índice de masa corporal", "imc"),
    ("composicion corporal", "composicion_corporal"), ("composición corporal", "composicion_corporal"),
    ("analisis corporal", "composicion_corporal"), ("análisis corporal", "composicion_corporal"),
    ("grasa corporal", "composicion_corporal"), ("masa corporal", "composicion_corporal"),
    ("densidad corporal", "composicion_corporal")]

  // ---------------------------------------------------------------------
  // The last user line

  /** The dialogue lines: `prompt.strip().split('\n')`. */
  function Lines(prompt: string): seq<string> { Split(PyStrip(prompt), '\n') }

  /** A line that is not blank and does not start with `ai:` (checked before lower-casing). */
  predicate IsUserLine(line: string) {
    PyStrip(line) != "" && !StartsWith(PyStrip(line), "ai:")
  }

  /** The line stripped and lower-cased, with a leading `user:` and the spaces after it removed. */
  function UserText(line: string): string {
    var m := Lower(PyStrip(line));
    if StartsWith(m, "user:") then PyStrip(m[5..]) else m
  }

  /** The text of the last user line of `lines`, or "" when there is none. */
  function LastUserIn(lines: seq<string>): string
    decreases |lines|
  {
    if |lines| == 0 then ""
    else if IsUserLine(Last(lines)) then UserText(Last(lines))
    else LastUserIn(lines[..|lines| - 1])
  }

  function LastUserLine(prompt: string): string { LastUserIn(Lines(prompt)) }

  /** The last user line is the last line that is a user line: every later line is blank or an `ai:` line. */
  lemma {:induction false} LastUserInIsLast(lines: seq<string>)
    ensures (forall i :: 0 <= i < |lines| ==> !IsUserLine(lines[i])) ==> LastUserIn(lines) == ""
    ensures forall i :: (0 <= i < |lines| && IsUserLine(lines[i]) && (forall j :: i < j < |lines| ==> !IsUserLine(lines[j])))
                        ==> LastUserIn(lines) == UserText(lines[i])
    decreases |lines|
  {
    if |lines| > 0 && !IsUserLine(Last(lines)) {
      var front := lines[..|lines| - 1];
      LastUserInIsLast(front);
      assert forall i :: 0 <= i < |front| ==> front[i] == lines[i];
    }
  }

  /** The reverse scan of the dialogue lines for the last user message. */
  method FindLastUserMessage(lines: seq<string>) returns (m: string)
    ensures m == LastUserIn(lines)
  {
    m := "";
    var i := |lines|;
    assert lines[..i] == lines;
    while i > 0
      invariant 0 <= i <= |lines|
      invariant LastUserIn(lines) == LastUserIn(lines[..i])
    {
      var linea := lines[i - 1];
      assert Last(lines[..i]) == linea;
      if PyStrip(linea) != "" && !StartsWith(PyStrip(linea), "ai:") {
        assert LastUserIn(lines[..i]) == UserText(linea);
        m := Lower(PyStrip(linea));
        if StartsWith(m, "user:") {
          m := PyStrip(m[5..]);
        }
        assert m == UserText(linea);
        return;
      }
      assert lines[..i][..i - 1] == lines[..i - 1];
      i := i - 1;
    }
  }

  /** The last user text is a substring of the lower-cased dialogue. */
  lemma LastUserLineInPrompt(prompt: string)
    ensures Contains(Lower(prompt), LastUserLine(prompt))
  {
    var lines := Lines(prompt);
    LastUserInChoice(lines);
    var u := LastUserLine(prompt);
    if u == "" {
      assert OccursAt(Lower(prompt), u, 0);
      ContainsAt(Lower(prompt), u, 0);
    } else {
      var i :| 0 <= i < |lines| && u == UserText(lines[i]);
      SplitPieces(PyStrip(prompt), '\n');
      ContainsTrim(prompt, IsPySpace);
      ContainsTrans(prompt, PyStrip(prompt), lines[i]);
      ContainsTrim(lines[i], IsPySpace);
      ContainsTrans(prompt, lines[i], PyStrip(lines[i]));
      ContainsLower(prompt, PyStrip(lines[i]));
      var m := Lower(PyStrip(lines[i]));
      if StartsWith(m, "user:") {
        ContainsSlice(m, 5, |m|);
        assert m[5..|m|] == m[5..];
        ContainsTrim(m[5..], IsPySpace);
        ContainsTrans(m, m[5..], u);
        ContainsTrans(Lower(prompt), m, u);
      }
    }
  }

  lemma {:induction false} LastUserInChoice(lines: seq<string>)
    ensures LastUserIn(lines) == "" || exists i :: 0 <= i < |lines| && LastUserIn(lines) == UserText(lines[i])
    decreases |lines|
  {
    if |lines| > 0 && !IsUserLine(Last(lines)) {
      var front := lines[..|lines| - 1];
      LastUserInChoice(front);
      if LastUserIn(front) != "" {
        var i :| 0 <= i < |front| && LastUserIn(front) == UserText(front[i]);
        assert front[i] == lines[i];
      }
    }
  }

  // ---------------------------------------------------------------------
  // Detection

  /** `(formula_key, formula)`; `(None, None)` when no formula is detected. */
  datatype Detection = Detection(key: Option<string>, formula: Option<Formula>)

  function Found(reg: Registry, k: string): Detection { Detection(Some(k), Get(reg, k)) }

  /** The first mapped term that occurs in `pl` and whose key is in the registry. */
  function MappedTerm(pl: string, terms: seq<(string, string)>, reg: Registry): (r: Option<string>)
    ensures r.Some? ==> HasKey(reg, r.value)
    ensures r.Some? ==> exists k :: 0 <= k < |terms| && terms[k].1 == r.value && Contains(pl, terms[k].0) &&
                                  forall j :: 0 <= j < k ==> !(Contains(pl, terms[j].0) && HasKey(reg, terms[j].1))
    ensures r.None? ==> forall k :: 0 <= k < |terms| ==> !(Contains(pl, terms[k].0) && HasKey(reg, terms[k].1))
    decreases |terms|
  {
    if |terms| == 0 then None
    else if Contains(pl, terms[0].0) && HasKey(reg, terms[0].1) then Some(terms[0].1)
    else
      var r := MappedTerm(pl, terms[1..], reg);
      assert forall k :: 1 <= k < |terms| ==> terms[1..][k - 1] == terms[k];
      if r.Some? then
        var k :| 0 <= k < |terms[1..]| && terms[1..][k].1 == r.value && Contains(pl, terms[1..][k].0) &&
          forall j :: 0 <= j < k ==> !(Contains(pl, terms[1..][j].0) && HasKey(reg, terms[1..][j].1));
        assert terms[k + 1].1 == r.value && Contains(pl, terms[k + 1].0);
        r
      else r
  }

  /** A registry entry named in `pl`: its lower-cased non-empty `nombre`, or else its key (as written). */
  predicate NamedIn(pl: string, entry: (string, Formula)) {
    var nombre := Lower(entry.1.nombre);
    (nombre != "" && Contains(pl, nombre)) || Contains(pl, entry.0)
  }

  /** The first registry entry named in `pl`. */
  function ByName(pl: string, reg: Registry): (r: Option<(string, Formula)>)
    ensures r.Some? ==> r.value in reg && NamedIn(pl, r.value)
    ensures r.Some? ==> exists i :: 0 <= i < |reg| && reg[i] == r.value && forall j :: 0 <= j < i ==> !NamedIn(pl, reg[j])
    ensures r.None? ==> forall i :: 0 <= i < |reg| ==> !NamedIn(pl, reg[i])
    decreases |reg|
  {
    if |reg| == 0 then None
    else if NamedIn(pl, reg[0]) then Some(reg[0])
    else
      var r := ByName(pl, reg[1..]);
      assert forall i :: 1 <= i < |reg| ==> reg[1..][i - 1] == reg[i];
      if r.Some? then
        var i :| 0 <= i < |reg[1..]| && reg[1..][i] == r.value && forall j :: 0 <= j < i ==> !NamedIn(pl, reg[1..][j]);
        assert reg[i + 1] == r.value;
        r
      else r
  }

  /** The steps that use only the fixed phrase lists: the last user line, then the whole prompt. */
  function DetectByPhrases(prompt: string, reg: Registry): (r: Option<Detection>)
    ensures r.Some? ==> r.value.key.Some? && r.value.key.value in {ImcKey, CompositionKey}
    ensures r.Some? ==> r.value.formula == Get(reg, r.value.key.value)
  {
    var pl := Lower(prompt);
    var u := LastUserLine(prompt);
    if u != "" && AnyIn(u, CompAliases) then Some(Found(reg, CompositionKey))
    else if u != "" && AnyIn(u, ImcAliases) then Some(Found(reg, ImcKey))
    else if AnyIn(pl, CompQuestionTerms) || Contains(pl, "composicion corporal") || Contains(pl, "composición corporal")
    then Some(Found(reg, CompositionKey))
    else if AnyIn(pl, ImcAliases) then Some(Found(reg, ImcKey))
    else None
  }

  /** `detectar_formula_en_prompt(prompt, formulas)`. */
  function Detect(prompt: string, reg: Registry): (r: Detection)
    ensures r.key.None? ==> r.formula.None?
    ensures r.key.Some? ==> r.key.value in {ImcKey, CompositionKey} || HasKey(reg, r.key.value)
    ensures r.formula.Some? ==> r.key.Some? && HasKey(reg, r.key.value)
  {
    var pl := Lower(prompt);
    match DetectByPhrases(prompt, reg)
    case Some(d) => d
    case None =>
      match MappedTerm(pl, TermMap, reg)
      case Some(k) => Detection(Some(k), Get(reg, k))
      case None =>
        match ByName(pl, reg)
        case Some(e) => Detection(Some(e.0), Some(e.1))
        case None => Detection(None, None)
  }

  /** With distinct registry keys, the detected formula is the one the registry holds under the detected key. */
  lemma DetectConsistent(prompt: string, reg: Registry)
    requires DistinctKeys(reg)
    ensures Detect(prompt, reg).key.Some? ==> Detect(prompt, reg).formula == Get(reg, Detect(prompt, reg).key.value)
  {
    var pl := Lower(prompt);
    if DetectByPhrases(prompt, reg).None? && MappedTerm(pl, TermMap, reg).None? {
      var e := ByName(pl, reg);
      if e.Some? {
        var i :| 0 <= i < |reg| && reg[i] == e.value;
        GetEntry(reg, i);
      }
    }
  }

  /** No fixed phrase applies: the last user line has no composition phrase and the dialogue no composition term and no IMC phrase. */
  lemma PhrasesNothing(prompt: string, reg: Registry)
    ensures var pl := Lower(prompt);
      DetectByPhrases(prompt, reg).None? <==>
        && !AnyIn(LastUserLine(prompt), CompAliases)
        && !AnyIn(pl, CompQuestionTerms) && !Contains(pl, "composicion corporal") && !Contains(pl, "composición corporal")
        && !AnyIn(pl, ImcAliases)
  {
    var u := LastUserLine(prompt);
    LastUserLineInPrompt(prompt);
    AnyInSub(Lower(prompt), u, ImcAliases);
    AnyInNonEmpty(u, CompAliases);
  }

  /**
   * Nothing is detected exactly when no fixed phrase applies, no mapped term
   * of a registered formula occurs and no registered name or key occurs in
   * the lower-cased dialogue.
   */
  lemma DetectNothing(prompt: string, reg: Registry)
    ensures var pl := Lower(prompt);
      Detect(prompt, reg).key.None? <==>
        DetectByPhrases(prompt, reg).None? && MappedTerm(pl, TermMap, reg).None? && ByName(pl, reg).None?
  {
  }

  /** No term of the map is a registered key that occurs in the dialogue. */
  lemma MappedTermNone(pl: string, terms: seq<(string, string)>, reg: Registry)
    ensures MappedTerm(pl, terms, reg).None? <==> forall k :: 0 <= k < |terms| ==> !(Contains(pl, terms[k].0) && HasKey(reg, terms[k].1))
  {
    var m := MappedTerm(pl, terms, reg);
    if m.Some? {
      var k :| 0 <= k < |terms| && terms[k].1 == m.value && Contains(pl, terms[k].0);
    }
  }

  /** No registry entry is named in the dialogue. */
  lemma ByNameNone(pl: string, reg: Registry)
    ensures ByName(pl, reg).None? <==> forall i :: 0 <= i < |reg| ==> !NamedIn(pl, reg[i])
  {
    var b := ByName(pl, reg);
    if b.Some? {
      var i :| 0 <= i < |reg| && reg[i] == b.value;
    }
  }

  /** A composition phrase in the last user line wins over everything else, an IMC phrase included. */
  lemma DetectLastLineComposition(prompt: string, reg: Registry)
    requires AnyIn(LastUserLine(prompt), CompAliases)
    ensures Detect(prompt, reg) == Detection(Some(CompositionKey), Get(reg, CompositionKey))
  {
    AnyInNonEmpty(LastUserLine(prompt), CompAliases);
    assert DetectByPhrases(prompt, reg) == Some(Found(reg, CompositionKey));
  }
}
