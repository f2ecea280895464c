/**
 * Parameter extraction in the chat backend (`extraer_parametros_usuario`).
 *
 * Nine parameters are looked for, each with its own ordered list of
 * patterns and its own range: the first pattern that yields an in-range
 * value wins, and within a pattern the first in-range match wins. When no
 * pattern yields anything at all, a fallback reads the line after a line
 * that mentions peso, altura, años or sexo.
 *
 * The dictionary stores `str(valor)` and the evaluators read it back with
 * `float` or `int`; the model stores the value itself.
 */
module Extraction {
  import opened Options
  import opened Text
  import opened Scan
  import opened ChatDetector

  /** A stored parameter: a number, or the letter of `sexo`. */
  datatype Value = Num(x: real) | Letter(c: char)

  type Params = map<string, Value>

  // ---------------------------------------------------------------------
  // Ranges

  /** The filter applied to each captured number. */
  datatype Rule =
    | Within(lo: real, hi: real)   // lo <= v <= hi, stored as is
    | Height                       // 1.0..2.5 as metres, else 140..220 as centimetres

  predicate InBounds(rule: Rule, x: real) {
    match rule
    case Within(lo, hi) => lo <= x <= hi
    case Height => 1.0 <= x <= 2.5
  }

  /** The value stored for the captured number `v`, if the rule accepts it. */
  function Accept(rule: Rule, v: real): (r: Option<real>)
    ensures r.Some? ==> InBounds(rule, r.value)
    ensures rule.Within? ==> (r.Some? <==> rule.lo <= v <= rule.hi) && (r.Some? ==> r.value == v)
    ensures rule.Height? ==> (r.Some? <==> (1.0 <= v <= 2.5 || 140.0 <= v <= 220.0))
    ensures rule.Height? && r.Some? ==> r.value == (if v <= 2.5 then v else v / 100.0)
  {
    match rule
    case Within(lo, hi) => if lo <= v <= hi then Some(v) else None
    case Height =>
      if 1.0 <= v <= 2.5 then Some(v)
      else if 140.0 <= v <= 220.0 then Some(v / 100.0)
      else None
  }

  const PesoRule := Within(30.0, 200.0)
  const EdadRule := Within(10.0, 120.0)
  const CmbRule := Within(15.0, 50.0)
  const PliegueRule := Within(3.0, 50.0)

  // ---------------------------------------------------------------------
  // The pattern lists, in the order they are tried

  /** `\d{1,3}(?:[\.,]\d+)?` */
  const Num3 := NumSpec(1, 3, AnyFrac)
  /** `\d{1,2}[\.,]\d{1,2}` */
  const Metres := NumSpec(1, 2, TwoFrac)
  /** `\d{2,3}` */
  const Centimetres := NumSpec(2, 3, NoFrac)
  /** `\d{1,3}` */
  const Int3 := NumSpec(1, 3, NoFrac)
  /** `\d{1,2}(?:[\.,]\d+)?` */
  const Num2 := NumSpec(1, 2, AnyFrac)

  const PesoPatterns: seq<Pattern> := [
    NumUnit(Num3, ["kg", "kilogramos", "kilogramo", "kilos", "kilo"]),
    KwNum("peso", Num3),
    KwNum("¿cuál es tu peso", Num3)]

  const AlturaPatterns: seq<Pattern> := [
    NumUnit(Metres, ["m", "metros", "metro"]),
    NumUnit(Centimetres, ["cm", "centimetros", "centimetro", "centímetros", "centímetro"]),
    KwNum("altura", Metres),
    KwNum("¿cuál es tu altura", Metres),
    KwNum("¿cuál es tu altura", Centimetres)]

  const EdadPatterns: seq<Pattern> := [
    NumUnit(Int3, ["años", "año"]),
    KwNum("edad", Int3),
    KwNum("¿cuántos años", Int3),
    KwNum("tienes", Int3)]

  const CmbPatterns: seq<Pattern> := [
    NumUnitThen(Num3, "cm", "brazo"),
    KwNumUnit("brazo", Num3, "cm"),
    KwKwNum("circunferencia", "brazo", Num3),
    KwNum("cmb", Num3)]

  /** The four skinfolds in the order of the dictionary that lists them. */
  const PlieguePatterns: seq<(string, seq<Pattern>)> := [
    ("pct", [KwNum("tricipital", Num2), KwNum("pct", Num2)]),
    ("pcb", [KwNum("bicipital", Num2), KwNum("pcb", Num2)]),
    ("pcse", [KwNum("subescapular", Num2), KwNum("pcse", Num2)]),
    ("pci", [KwNum("ilíaco", Num2), KwNum("iliaco", Num2), KwNum("pci", Num2)])]

  // ---------------------------------------------------------------------
  // First in-range match, first pattern

  /** The stored value for the first element of `vs` the rule accepts. */
  function FirstAccepted(vs: seq<real>, rule: Rule): (r: Option<real>)
    ensures r.Some? ==> InBounds(rule, r.value)
    ensures r.None? <==> forall k :: 0 <= k < |vs| ==> Accept(rule, vs[k]).None?
    ensures r.Some? ==> exists k :: (0 <= k < |vs| && Accept(rule, vs[k]) == r
                                     && forall j :: 0 <= j < k ==> Accept(rule, vs[j]).None?)
    decreases |vs|
  {
    if |vs| == 0 then None
    else if Accept(rule, vs[0]).Some? then Accept(rule, vs[0])
    else
      var r := FirstAccepted(vs[1..], rule);
      assert forall k :: 1 <= k < |vs| ==> vs[1..][k - 1] == vs[k];
      assert r.Some? ==> exists k :: (0 <= k < |vs| && Accept(rule, vs[k]) == r
                                      && forall j :: 0 <= j < k ==> Accept(rule, vs[j]).None?) by {
        if r.Some? {
          var k :| 0 <= k < |vs[1..]| && Accept(rule, vs[1..][k]) == r
                   && forall j :: 0 <= j < k ==> Accept(rule, vs[1..][j]).None?;
          assert Accept(rule, vs[k + 1]) == r;
          forall j | 0 <= j < k + 1 ensures Accept(rule, vs[j]).None? {
            if j > 0 { assert vs[j] == vs[1..][j - 1]; }
          }
        }
      }
      r
  }

  /** The value in the text for one parameter: the first pattern of `pats` with an accepted match. */
  function FirstMatch(t: string, pats: seq<Pattern>, rule: Rule): (r: Option<real>)
    ensures r.Some? ==> InBounds(rule, r.value)
    ensures r.None? <==> forall i :: 0 <= i < |pats| ==> FirstAccepted(FindAll(t, pats[i], 0), rule).None?
    decreases |pats|
  {
    if |pats| == 0 then None
    else if FirstAccepted(FindAll(t, pats[0], 0), rule).Some? then FirstAccepted(FindAll(t, pats[0], 0), rule)
    else
      var r := FirstMatch(t, pats[1..], rule);
      assert forall i :: 1 <= i < |pats| ==> pats[1..][i - 1] == pats[i];
      r
  }

  /** A value found is the accepted match of the first pattern that has one. */
  lemma {:induction false} FirstMatchIsFirst(t: string, pats: seq<Pattern>, rule: Rule)
    ensures var r := FirstMatch(t, pats, rule);
      r.Some? ==> exists i :: (0 <= i < |pats| && FirstAccepted(FindAll(t, pats[i], 0), rule) == r
                               && forall j :: 0 <= j < i ==> FirstAccepted(FindAll(t, pats[j], 0), rule).None?)
    decreases |pats|
  {
    if |pats| > 0 && FirstAccepted(FindAll(t, pats[0], 0), rule).None? {
      var r := FirstMatch(t, pats[1..], rule);
      FirstMatchIsFirst(t, pats[1..], rule);
      if r.Some? {
        var i :| 0 <= i < |pats[1..]| && FirstAccepted(FindAll(t, pats[1..][i], 0), rule) == r
                 && forall j :: 0 <= j < i ==> FirstAccepted(FindAll(t, pats[1..][j], 0), rule).None?;
        assert pats[i + 1] == pats[1..][i];
        forall j | 0 <= j < i + 1 ensures FirstAccepted(FindAll(t, pats[j], 0), rule).None? {
          if j > 0 { assert pats[j] == pats[1..][j - 1]; }
        }
      }
    }
  }

  // ---------------------------------------------------------------------
  // sexo

  /** What one sexo match stores: a single letter upper-cased, or the letter of a sex word. */
  function SexOf(m: string): (r: Option<char>)
    ensures |m| == 1 && IsMF(m[0]) ==> r.Some? && r.value in {'M', 'F'}
    ensures m in SexWords ==> r.Some? && r.value in {'M', 'F'}
  {
    if |m| == 1 then Some(UpperChar(m[0]))
    else if Contains(m, "masculino") || Contains(m, "hombre") then Some('M')
    else if Contains(m, "femenino") || Contains(m, "mujer") then Some('F')
    else None
  }

  /** The first match, over the match lists in order, that stores a letter. */
  function FirstSex(lists: seq<seq<string>>): Option<char>
    decreases |lists|
  {
    if |lists| == 0 then None else
    var r := FirstSexIn(lists[0]);
    if r.Some? then r else FirstSex(lists[1..])
  }

  function FirstSexIn(ms: seq<string>): Option<char>
    decreases |ms|
  {
    if |ms| == 0 then None else if SexOf(ms[0]).Some? then SexOf(ms[0]) else FirstSexIn(ms[1..])
  }

  /** The matches of the three sexo patterns, in pattern order. */
  function SexMatches(t: string): seq<seq<string>> {
    [LoneMF(t, 0), SexoMF(t, 0), SexWordMatches(t, 0)]
  }

  /** sexo found by the patterns is always "M" or "F". */
  lemma SexoFound(t: string)
    ensures FirstSex(SexMatches(t)).Some? ==> FirstSex(SexMatches(t)).value in {'M', 'F'}
  {
    var L := SexMatches(t);
    forall k | 0 <= k < |L| ensures FirstSexIn(L[k]).Some? ==> FirstSexIn(L[k]).value in {'M', 'F'} {
      SexInMF(L[k]);
    }
    FirstSexMF(L);
  }

  lemma {:induction false} FirstSexMF(lists: seq<seq<string>>)
    requires forall k :: 0 <= k < |lists| ==> FirstSexIn(lists[k]).Some? ==> FirstSexIn(lists[k]).value in {'M', 'F'}
    ensures FirstSex(lists).Some? ==> FirstSex(lists).value in {'M', 'F'}
    decreases |lists|
  {
    if |lists| > 0 && FirstSexIn(lists[0]).None? {
      assert forall k :: 1 <= k < |lists| ==> lists[1..][k - 1] == lists[k];
      FirstSexMF(lists[1..]);
    }
  }

  lemma SexInMF(ms: seq<string>)
    requires forall k :: 0 <= k < |ms| ==> (|ms[k]| == 1 && IsMF(ms[k][0])) || ms[k] in SexWords
    ensures FirstSexIn(ms).Some? ==> FirstSexIn(ms).value in {'M', 'F'}
  {
    if |ms| > 0 {
      assert SexOf(ms[0]).Some?;
    }
  }

  // ---------------------------------------------------------------------
  // The whole extraction

  function AsNum(v: Option<real>): Option<Value> {
    if v.Some? then Some(Num(v.value)) else None
  }

  /** `params[k] = v` when a value was found. */
  function With(p: Params, k: string, v: Option<Value>): (r: Params)
    ensures v.Some? ==> r == p[k := v.value]
    ensures v.None? ==> r == p
  {
    if v.Some? then p[k := v.value] else p
  }

  /** The skinfolds, added to `p` in list order. */
  function PlieguesFrom(t: string, folds: seq<(string, seq<Pattern>)>, p: Params): Params
    decreases |folds|
  {
    if |folds| == 0 then p
    else PlieguesFrom(t, folds[1..], With(p, folds[0].0, AsNum(FirstMatch(t, folds[0].1, PliegueRule))))
  }

  /** peso, altura, edad, sexo and cmb, in that order. */
  function BasicParams(t: string): Params {
    var p1 := With(map[], "peso", AsNum(FirstMatch(t, PesoPatterns, PesoRule)));
    var p2 := With(p1, "altura", AsNum(FirstMatch(t, AlturaPatterns, Height)));
    var p3 := With(p2, "edad", AsNum(FirstMatch(t, EdadPatterns, EdadRule)));
    var s := FirstSex(SexMatches(t));
    var p4 := With(p3, "sexo", if s.Some? then Some(Letter(s.value)) else None);
    With(p4, "cmb", AsNum(FirstMatch(t, CmbPatterns, CmbRule)))
  }

  /** The parameters the patterns find in the lower-cased text `t`. */
  function PatternParams(t: string): Params {
    PlieguesFrom(t, PlieguePatterns, BasicParams(t))
  }

  /** The first lone m/f letter of a line (`re.search(r'\b([MFmf])\b', …)`), upper-cased. */
  function FirstLoneMF(line: string): Option<char> {
    var ms := LoneMF(line, 0);
    if |ms| > 0 then Some(UpperChar(ms[0][0])) else None
  }

  /**
   * The fallback over the lines from `i` on: a line mentioning peso, altura,
   * años or sexo (looked for in that order) sets that parameter from the next
   * line; a later line overwrites an earlier value, and a sexo letter ends
   * the scan.
   */
  function FallbackFrom(lines: seq<string>, i: nat, p: Params): Params
    requires i <= |lines|
    decreases |lines| - i
  {
    if i == |lines| then p
    else
      var linea := Lower(PyStrip(lines[i]));
      var hasNext := i + 1 < |lines|;
      if Contains(linea, "peso") && hasNext then
        var v := FirstAccepted(FindAll(PyStrip(lines[i + 1]), Bare(Num3), 0), PesoRule);
        FallbackFrom(lines, i + 1, With(p, "peso", AsNum(v)))
      else if Contains(linea, "altura") && hasNext then
        var v := FirstAccepted(FindAll(PyStrip(lines[i + 1]), Bare(Num3), 0), Height);
        FallbackFrom(lines, i + 1, With(p, "altura", AsNum(v)))
      else if Contains(linea, "años") && hasNext then
        var v := FirstAccepted(FindAll(PyStrip(lines[i + 1]), Bare(Int3), 0), EdadRule);
        FallbackFrom(lines, i + 1, With(p, "edad", AsNum(v)))
      else if Contains(linea, "sexo") && hasNext then
        var s := FirstLoneMF(PyStrip(lines[i + 1]));
        if s.Some? then p["sexo" := Letter(s.value)] else FallbackFrom(lines, i + 1, p)
      else FallbackFrom(lines, i + 1, p)
  }

  /** The parameters of the lower-cased text `t`: the patterns, or the fallback when they found nothing. */
  function Extract(t: string): Params {
    var p := PatternParams(t);
    if |p| == 0 then FallbackFrom(Split(t, '\n'), 0, map[]) else p
  }

  /** The last `n` elements (`L[-n:]`), or all of them. */
  function LastN<T>(L: seq<T>, n: nat): (r: seq<T>)
    ensures |r| == if |L| > n then n else |L|
    ensures r == L[|L| - |r|..]
  {
    if |L| > n then L[|L| - n..] else L
  }

  /** The scanned text: the last 3 lines on a new request, else the whole dialogue; lower-cased. */
  function ScanText(prompt: string, nueva: bool): string {
    if nueva then Lower(Join(LastN(Lines(prompt), 3), '\n')) else Lower(prompt)
  }

  /** `extraer_parametros_usuario(prompt, formula, es_nueva_solicitud)`; the formula argument is not used. */
  function ExtractParams(prompt: string, nueva: bool): Params {
    Extract(ScanText(prompt, nueva))
  }

  // ---------------------------------------------------------------------
  // What every extraction satisfies

  /** The stored value of each known parameter is of its kind and in its range. */
  predicate ValueOk(k: string, v: Value) {
    (k == "peso" ==> v.Num? && 30.0 <= v.x <= 200.0)
    && (k == "altura" ==> v.Num? && 1.0 <= v.x <= 2.5)
    && (k == "edad" ==> v.Num? && 10.0 <= v.x <= 120.0 && v.x.Floor as real == v.x)
    && (k == "sexo" ==> v == Letter('M') || v == Letter('F'))
    && (k == "cmb" ==> v.Num? && 15.0 <= v.x <= 50.0)
    && (k in {"pct", "pcb", "pcse", "pci"} ==> v.Num? && 3.0 <= v.x <= 50.0)
  }

  const ParamNames: set<string> := {"peso", "altura", "edad", "sexo", "cmb", "pct", "pcb", "pcse", "pci"}

  predicate WellFormed(p: Params) {
    forall k :: k in p ==> k in ParamNames && ValueOk(k, p[k])
  }

  /** A number without a fraction is a whole number. */
  lemma {:induction false} IntsAreWhole(s: string, pat: Pattern, p: nat)
    requires pat.Bare? || pat.NumUnit? || pat.KwNum?
    requires pat.num.frac.NoFrac?
    requires p <= |s|
    ensures forall k :: 0 <= k < |FindAll(s, pat, p)| ==> FindAll(s, pat, p)[k].Floor as real == FindAll(s, pat, p)[k]
    decreases |s| - p
  {
    if p < |s| {
      match MatchAt(s, p, pat)
      case Some(h) =>
        IntsAreWhole(s, pat, h.end);
        WholeMatch(s, p, pat);
      case None =>
        IntsAreWhole(s, pat, p + 1);
    }
  }

  lemma WholeMatch(s: string, p: nat, pat: Pattern)
    requires p <= |s| && (pat.Bare? || pat.NumUnit? || pat.KwNum?) && pat.num.frac.NoFrac?
    ensures MatchAt(s, p, pat).Some? ==> MatchAt(s, p, pat).value.value.Floor as real == MatchAt(s, p, pat).value.value
  {
    if pat.KwNum? && StartsWith(s[p..], pat.kw) {
      WholeNext(s, p + |pat.kw|, pat.num);
    }
  }

  lemma {:induction false} WholeNext(s: string, q: nat, spec: NumSpec)
    requires q <= |s| && spec.frac.NoFrac?
    ensures NextNumber(s, q, spec).Some? ==> NextNumber(s, q, spec).value.value.Floor as real == NextNumber(s, q, spec).value.value
    decreases |s| - q
  {
    if q < |s| && NumberAt(s, q, spec).None? {
      WholeNext(s, q + 1, spec);
    }
  }

  /** Every accepted element of a list of whole numbers is whole. */
  lemma WholeAccepted(vs: seq<real>, rule: Rule)
    requires rule.Within?
    requires forall k :: 0 <= k < |vs| ==> vs[k].Floor as real == vs[k]
    ensures FirstAccepted(vs, rule).Some? ==> FirstAccepted(vs, rule).value.Floor as real == FirstAccepted(vs, rule).value
  {
  }

  /** The age patterns capture whole numbers only. */
  lemma {:induction false} WholeFirstMatch(t: string, pats: seq<Pattern>, rule: Rule)
    requires rule.Within?
    requires forall i :: 0 <= i < |pats| ==> (pats[i].Bare? || pats[i].NumUnit? || pats[i].KwNum?) && pats[i].num.frac.NoFrac?
    ensures FirstMatch(t, pats, rule).Some? ==> FirstMatch(t, pats, rule).value.Floor as real == FirstMatch(t, pats, rule).value
    decreases |pats|
  {
    if |pats| > 0 {
      IntsAreWhole(t, pats[0], 0);
      WholeAccepted(FindAll(t, pats[0], 0), rule);
      assert forall i :: 1 <= i < |pats| ==> pats[1..][i - 1] == pats[i];
      WholeFirstMatch(t, pats[1..], rule);
    }
  }

  lemma WithOk(p: Params, k: string, v: Option<Value>)
    requires WellFormed(p) && k in ParamNames
    requires v.Some? ==> ValueOk(k, v.value)
    ensures WellFormed(With(p, k, v))
  {
  }

  lemma {:induction false} PlieguesOk(t: string, folds: seq<(string, seq<Pattern>)>, p: Params)
    requires WellFormed(p)
    requires forall i :: 0 <= i < |folds| ==> folds[i].0 in {"pct", "pcb", "pcse", "pci"}
    ensures WellFormed(PlieguesFrom(t, folds, p))
    decreases |folds|
  {
    if |folds| > 0 {
      var k := folds[0].0;
      WithOk(p, k, AsNum(FirstMatch(t, folds[0].1, PliegueRule)));
      assert forall i :: 1 <= i < |folds| ==> folds[1..][i - 1] == folds[i];
      PlieguesOk(t, folds[1..], With(p, k, AsNum(FirstMatch(t, folds[0].1, PliegueRule))));
    }
  }

  /** Every parameter the patterns store is in its range; edad is whole and sexo is "M" or "F". */
  lemma PatternParamsOk(t: string)
    ensures WellFormed(PatternParams(t))
  {
    BasicParamsOk(t);
    PlieguesOk(t, PlieguePatterns, BasicParams(t));
  }

  lemma BasicParamsOk(t: string)
    ensures WellFormed(BasicParams(t))
  {
    var v1 := AsNum(FirstMatch(t, PesoPatterns, PesoRule));
    var v2 := AsNum(FirstMatch(t, AlturaPatterns, Height));
    var v3 := AsNum(FirstMatch(t, EdadPatterns, EdadRule));
    var s := FirstSex(SexMatches(t));
    var v4 := if s.Some? then Some(Letter(s.value)) else None;
    var v5 := AsNum(FirstMatch(t, CmbPatterns, CmbRule));
    WholeFirstMatch(t, EdadPatterns, EdadRule);
    SexoFound(t);
    var p1 := With(map[], "peso", v1);
    WithOk(map[], "peso", v1);
    var p2 := With(p1, "altura", v2);
    WithOk(p1, "altura", v2);
    var p3 := With(p2, "edad", v3);
    WithOk(p2, "edad", v3);
    var p4 := With(p3, "sexo", v4);
    WithOk(p3, "sexo", v4);
    WithOk(p4, "cmb", v5);
  }

  /** The fallback keeps every stored value in its range. */
  lemma {:induction false} FallbackOk(lines: seq<string>, i: nat, p: Params)
    requires i <= |lines| && WellFormed(p)
    ensures WellFormed(FallbackFrom(lines, i, p))
    decreases |lines| - i
  {
    if i < |lines| {
      var linea := Lower(PyStrip(lines[i]));
      var hasNext := i + 1 < |lines|;
      var next := p;
      if Contains(linea, "peso") && hasNext {
        var v := FirstAccepted(FindAll(PyStrip(lines[i + 1]), Bare(Num3), 0), PesoRule);
        WithOk(p, "peso", AsNum(v));
        next := With(p, "peso", AsNum(v));
      } else if Contains(linea, "altura") && hasNext {
        var v := FirstAccepted(FindAll(PyStrip(lines[i + 1]), Bare(Num3), 0), Height);
        WithOk(p, "altura", AsNum(v));
        next := With(p, "altura", AsNum(v));
      } else if Contains(linea, "años") && hasNext {
        var vs := FindAll(PyStrip(lines[i + 1]), Bare(Int3), 0);
        IntsAreWhole(PyStrip(lines[i + 1]), Bare(Int3), 0);
        WholeAccepted(vs, EdadRule);
        WithOk(p, "edad", AsNum(FirstAccepted(vs, EdadRule)));
        next := With(p, "edad", AsNum(FirstAccepted(vs, EdadRule)));
      } else if Contains(linea, "sexo") && hasNext {
        var s := FirstLoneMF(PyStrip(lines[i + 1]));
        if s.Some? {
          WithOk(p, "sexo", Some(Letter(s.value)));
          assert FallbackFrom(lines, i, p) == With(p, "sexo", Some(Letter(s.value)));
          return;
        }
      }
      assert FallbackFrom(lines, i, p) == FallbackFrom(lines, i + 1, next);
      FallbackOk(lines, i + 1, next);
    }
  }

  /** Whatever the dialogue, every extracted parameter is one of the nine names and in its range. */
  lemma ExtractOk(t: string)
    ensures WellFormed(Extract(t))
  {
    PatternParamsOk(t);
    FallbackOk(Split(t, '\n'), 0, map[]);
  }

  /** The fallback stores only peso, altura, edad and sexo. */
  lemma {:induction false} FallbackKeys(lines: seq<string>, i: nat, p: Params)
    requires i <= |lines|
    ensures FallbackFrom(lines, i, p).Keys <= p.Keys + {"peso", "altura", "edad", "sexo"}
    decreases |lines| - i
  {
    if i < |lines| {
      var linea := Lower(PyStrip(lines[i]));
      var hasNext := i + 1 < |lines|;
      if Contains(linea, "peso") && hasNext {
        var v := FirstAccepted(FindAll(PyStrip(lines[i + 1]), Bare(Num3), 0), PesoRule);
        FallbackKeys(lines, i + 1, With(p, "peso", AsNum(v)));
      } else if Contains(linea, "altura") && hasNext {
        var v := FirstAccepted(FindAll(PyStrip(lines[i + 1]), Bare(Num3), 0), Height);
        FallbackKeys(lines, i + 1, With(p, "altura", AsNum(v)));
      } else if Contains(linea, "años") && hasNext {
        var v := FirstAccepted(FindAll(PyStrip(lines[i + 1]), Bare(Int3), 0), EdadRule);
        FallbackKeys(lines, i + 1, With(p, "edad", AsNum(v)));
      } else if Contains(linea, "sexo") && hasNext {
        if FirstLoneMF(PyStrip(lines[i + 1])).None? {
          FallbackKeys(lines, i + 1, p);
        }
      } else {
        FallbackKeys(lines, i + 1, p);
      }
    }
  }

  /** The fallback runs only when the patterns found nothing; then it adds no body measurement and no skinfold. */
  lemma FallbackOnlyWhenEmpty(t: string)
    ensures PatternParams(t) != map[] ==> Extract(t) == PatternParams(t)
    ensures PatternParams(t) == map[] ==> Extract(t).Keys <= {"peso", "altura", "edad", "sexo"}
  {
    if PatternParams(t) == map[] {
      FallbackKeys(Split(t, '\n'), 0, map[]);
    } else {
      assert |PatternParams(t)| != 0;
    }
  }

  // ---------------------------------------------------------------------
  // The extraction as the backend runs it: loops over patterns and matches

  /** `for match in matches: … break` — the first match the rule accepts. */
  method FirstInRange(matches: seq<real>, rule: Rule) returns (v: Option<real>)
    ensures v == FirstAccepted(matches, rule)
  {
    var j := 0;
    assert matches[j..] == matches;
    while j < |matches|
      invariant 0 <= j <= |matches|
      invariant FirstAccepted(matches, rule) == FirstAccepted(matches[j..], rule)
    {
      var a := Accept(rule, matches[j]);
      if a.Some? {
        return a;
      }
      assert matches[j..][1..] == matches[j + 1..];
      j := j + 1;
    }
    return None;
  }

  /** `for patron in patrones: … if key in params: break` — the first pattern with an accepted match. */
  method FirstPatternInRange(texto: string, patrones: seq<Pattern>, rule: Rule) returns (v: Option<real>)
    ensures v == FirstMatch(texto, patrones, rule)
  {
    var i := 0;
    assert patrones[i..] == patrones;
    while i < |patrones|
      invariant 0 <= i <= |patrones|
      invariant FirstMatch(texto, patrones, rule) == FirstMatch(texto, patrones[i..], rule)
    {
      var matches := FindAll(texto, patrones[i], 0);
      v := FirstInRange(matches, rule);
      if v.Some? {
        return;
      }
      assert patrones[i..][1..] == patrones[i + 1..];
      i := i + 1;
    }
    return None;
  }

  /** The sexo loop: the first match, over the three match lists in order, that stores a letter. */
  method FirstSexLoop(lists: seq<seq<string>>) returns (s: Option<char>)
    ensures s == FirstSex(lists)
  {
    var i := 0;
    assert lists[i..] == lists;
    while i < |lists|
      invariant 0 <= i <= |lists|
      invariant FirstSex(lists) == FirstSex(lists[i..])
    {
      var matches := lists[i];
      var j := 0;
      assert matches[j..] == matches;
      while j < |matches|
        invariant 0 <= j <= |matches|
        invariant FirstSexIn(matches) == FirstSexIn(matches[j..])
      {
        var m := SexOf(matches[j]);
        if m.Some? {
          return m;
        }
        assert matches[j..][1..] == matches[j + 1..];
        j := j + 1;
      }
      assert lists[i..][1..] == lists[i + 1..];
      i := i + 1;
    }
    return None;
  }

  /** The next-line fallback over the lines of `texto`. */
  method Fallback(texto: string) returns (params: Params)
    ensures params == FallbackFrom(Split(texto, '\n'), 0, map[])
  {
    params := map[];
    var lineas := Split(texto, '\n');
    var i := 0;
    while i < |lineas|
      invariant 0 <= i <= |lineas|
      invariant FallbackFrom(lineas, i, params) == FallbackFrom(lineas, 0, map[])
    {
      var linea := Lower(PyStrip(lineas[i]));
      if Contains(linea, "peso") && i + 1 < |lineas| {
        var siguiente := PyStrip(lineas[i + 1]);
        var v := FirstInRange(FindAll(siguiente, Bare(Num3), 0), PesoRule);
        if v.Some? {
          params := params["peso" := Num(v.value)];
        }
      } else if Contains(linea, "altura") && i + 1 < |lineas| {
        var siguiente := PyStrip(lineas[i + 1]);
        var v := FirstInRange(FindAll(siguiente, Bare(Num3), 0), Height);
        if v.Some? {
          params := params["altura" := Num(v.value)];
        }
      } else if Contains(linea, "años") && i + 1 < |lineas| {
        var siguiente := PyStrip(lineas[i + 1]);
        var v := FirstInRange(FindAll(siguiente, Bare(Int3), 0), EdadRule);
        if v.Some? {
          params := params["edad" := Num(v.value)];
        }
      } else if Contains(linea, "sexo") && i + 1 < |lineas| {
        var siguiente := PyStrip(lineas[i + 1]);
        var ms := LoneMF(siguiente, 0);
        if |ms| > 0 {
          params := params["sexo" := Letter(UpperChar(ms[0][0]))];
          return;
        }
      }
      i := i + 1;
    }
  }

  /** `for pliegue, patrones in pliegues_patrones.items(): …` */
  method AddPliegues(texto: string, folds: seq<(string, seq<Pattern>)>, p: Params) returns (params: Params)
    ensures params == PlieguesFrom(texto, folds, p)
  {
    params := p;
    var i := 0;
    while i < |folds|
      invariant 0 <= i <= |folds|
      invariant PlieguesFrom(texto, folds, p) == PlieguesFrom(texto, folds[i..], params)
    {
      var (pliegue, patrones) := folds[i];
      var v := FirstPatternInRange(texto, patrones, PliegueRule);
      if v.Some? {
        params := params[pliegue := Num(v.value)];
      }
      assert folds[i..][1..] == folds[i + 1..];
      i := i + 1;
    }
    assert folds[i..] == [];
  }

  /** `extraer_parametros_usuario(prompt, formula, es_nueva_solicitud)`. */
  method ExtraerParametrosUsuario(prompt: string, nueva: bool) returns (params: Params)
    ensures params == ExtractParams(prompt, nueva)
    ensures WellFormed(params)
  {
    var texto := Lower(prompt);
    if nueva {
      var lineas := Lines(prompt);
      var reciente := if |lineas| > 3 then lineas[|lineas| - 3..] else lineas;
      texto := Lower(Join(reciente, '\n'));
    }
    assert texto == ScanText(prompt, nueva);
    params := PatternSearch(texto);
    if |params| == 0 {
      params := Fallback(texto);
    }
    ExtractOk(texto);
  }

  /** The pattern searches of the nine parameters, in the order the backend runs them. */
  method PatternSearch(texto: string) returns (params: Params)
    ensures params == PatternParams(texto)
  {
    params := map[];
    var peso := FirstPatternInRange(texto, PesoPatterns, PesoRule);
    if peso.Some? {
      params := params["peso" := Num(peso.value)];
    }
    var altura := FirstPatternInRange(texto, AlturaPatterns, Height);
    if altura.Some? {
      params := params["altura" := Num(altura.value)];
    }
    var edad := FirstPatternInRange(texto, EdadPatterns, EdadRule);
    if edad.Some? {
      params := params["edad" := Num(edad.value)];
    }
    var sexo := FirstSexLoop(SexMatches(texto));
    if sexo.Some? {
      params := params["sexo" := Letter(sexo.value)];
    }
    var cmb := FirstPatternInRange(texto, CmbPatterns, CmbRule);
    if cmb.Some? {
      params := params["cmb" := Num(cmb.value)];
    }
    assert params == BasicParams(texto);
    params := AddPliegues(texto, PlieguePatterns, params);
  }

  /**
   * On a new request the scanned text is the lower-cased tail of the
   * stripped dialogue made of its last three lines (all of it when it has
   * three lines or fewer); the earlier lines are not read.
   */
  lemma NewRequestWindow(prompt: string)
    ensures var s := PyStrip(prompt);
      exists j :: (0 <= j <= |s| && ScanText(prompt, true) == Lower(s[j..])
                   && Split(s[j..], '\n') == LastN(Split(s, '\n'), 3)
                   && (j > 0 ==> s[j - 1] == '\n'))
  {
    var s := PyStrip(prompt);
    var L := Split(s, '\n');
    JoinSplit(s, '\n');
    SplitPiecesNoSep(s, '\n');
    var tail := LastN(L, 3);
    SplitJoin(tail, '\n');
    if |L| > 3 {
      var k := |L| - 3;
      JoinAt(L, k, '\n');
      var j := |Join(L[..k], '\n')| + 1;
      assert s[j..] == Join(L[k..], '\n');
      assert s[j - 1] == '\n';
    } else {
      assert s[0..] == s;
    }
  }
}
