/**
 * The frontend's formula resolver (`resolverFormula` of the
 * `useFormulaResolver` hook).
 *
 * A formula is resolved by name against the registry. Each of its
 * parameters that the caller did not supply is either the name of another
 * formula, which is resolved first (recursively, from the caller's
 * original values) and whose result is substituted, or a plain parameter,
 * which is collected as missing. Only `imc` and `get` are computed. The
 * result is labelled with the first half-open band `[min, max)` that holds
 * it, and every successful resolution is stored under its formula's name.
 *
 * JavaScript numbers are modelled as reals extended with the two
 * infinities and NaN; their rounding is not modelled.
 */
module Resolver {
  import opened Options
  import opened Text
  import opened Formulas

  // ---------------------------------------------------------------------
  // JavaScript numbers

  /** A JavaScript number: a real, an infinity or NaN. */
  datatype JsNum = Fin(x: real) | PosInf | NegInf | NaN

  /** The sign of a number that is not NaN. */
  function SignOf(a: JsNum): int
    requires !a.NaN?
  {
    match a
    case Fin(x) => if x > 0.0 then 1 else if x < 0.0 then -1 else 0
    case PosInf => 1
    case NegInf => -1
  }

  function Infinite(s: int): JsNum {
    if s > 0 then PosInf else NegInf
  }

  /** `a * b`. */
  function Mul(a: JsNum, b: JsNum): (r: JsNum)
    ensures a.Fin? && b.Fin? ==> r == Fin(a.x * b.x)
    ensures a.NaN? || b.NaN? ==> r.NaN?
  {
    if a.NaN? || b.NaN? then NaN
    else if a.Fin? && b.Fin? then Fin(a.x * b.x)
    else if SignOf(a) == 0 || SignOf(b) == 0 then NaN
    else Infinite(SignOf(a) * SignOf(b))
  }

  function Square(x: real): real { x * x }

  /** `Math.pow(a, 2)`. */
  function Pow2(a: JsNum): (r: JsNum)
    ensures a.Fin? ==> r == Fin(Square(a.x))
    ensures a.NaN? <==> r.NaN?
    ensures a.PosInf? || a.NegInf? ==> r.PosInf?
  {
    match a
    case Fin(x) => Fin(Square(x))
    case NaN => NaN
    case _ => PosInf
  }

  /** `a / b`, for a divisor whose zero is the positive zero. */
  function Div(a: JsNum, b: JsNum): (r: JsNum)
    ensures a.Fin? && b.Fin? && b.x != 0.0 ==> r == Fin(a.x / b.x)
    ensures a.Fin? && b.Fin? && b.x == 0.0 ==> !r.Fin?
    ensures a.NaN? || b.NaN? ==> r.NaN?
  {
    if a.NaN? || b.NaN? then NaN
    else if a.Fin? && b.Fin? then
      if b.x != 0.0 then Fin(a.x / b.x) else if a.x == 0.0 then NaN else Infinite(SignOf(a))
    else if a.Fin? then Fin(0.0)
    else if b.Fin? then Infinite(SignOf(a) * (if b.x < 0.0 then -1 else 1))
    else NaN
  }

  /** `n >= m` for a finite `m`: false for NaN and negative infinity. */
  predicate AtLeast(n: JsNum, m: real) {
    match n
    case Fin(x) => x >= m
    case PosInf => true
    case NegInf => false
    case NaN => false
  }

  /** `n < m` for a finite `m`: false for NaN and positive infinity. */
  predicate Below(n: JsNum, m: real) {
    match n
    case Fin(x) => x < m
    case PosInf => false
    case NegInf => true
    case NaN => false
  }

  /** A value a caller may pass: a string or a number. */
  datatype ParamValue = PStr(s: string) | PNum(n: JsNum)

  type Values = map<string, ParamValue>

  /** `Number(v)`; `parse` is JavaScript's string-to-number conversion, and an absent value is NaN. */
  function ToNumber(v: Option<ParamValue>, parse: string -> JsNum): JsNum {
    match v
    case None => NaN
    case Some(PStr(s)) => parse(s)
    case Some(PNum(n)) => n
  }

  function Lookup(m: Values, k: string): Option<ParamValue> {
    if k in m then Some(m[k]) else None
  }

  // ---------------------------------------------------------------------
  // The result and its label

  /** `FormulaResult`: the formula's name, its value and its optional label. */
  datatype FormulaResult = FormulaResult(nombre: string, resultado: JsNum, interpretacion: Option<string>)

  datatype Outcome = Ok(res: FormulaResult) | Err(message: string)

  /** `resultado >= rango.min && resultado < rango.max`. */
  predicate InHalfOpen(b: Band, v: JsNum) {
    AtLeast(v, b.min) && Below(v, b.max)
  }

  /** The text of the first half-open band that holds `v`. */
  function LabelOf(bands: seq<Band>, v: JsNum): (r: Option<string>)
    ensures r.None? <==> forall i :: 0 <= i < |bands| ==> !InHalfOpen(bands[i], v)
    ensures r.Some? ==> exists i :: 0 <= i < |bands| && InHalfOpen(bands[i], v) && r.value == bands[i].texto
                                    && forall j :: 0 <= j < i ==> !InHalfOpen(bands[j], v)
    decreases |bands|
  {
    if |bands| == 0 then None
    else if InHalfOpen(bands[0], v) then Some(bands[0].texto)
    else
      var r := LabelOf(bands[1..], v);
      assert forall i :: 1 <= i < |bands| ==> bands[1..][i - 1] == bands[i];
      r
  }

  /** Only a finite value is labelled, and only by a band with `min <= v < max`. */
  lemma LabelOnlyFinite(bands: seq<Band>, v: JsNum)
    ensures LabelOf(bands, v).Some? ==> v.Fin? && exists i :: 0 <= i < |bands| && bands[i].min <= v.x < bands[i].max
  {
  }

  /**
   * Unlike the backend's inclusive bands, a value equal to a band's `max`
   * is not in that band: with the bands [a, b] then [b, c], the value b
   * gets the first text in the backend and the second here.
   */
  lemma UpperEdgeExcluded(a: real, b: real, c: real, t1: string, t2: string)
    requires a < b < c
    ensures var bands := [Band(a, b, t1, None), Band(b, c, t2, None)];
      && FirstBandText(bands, None, b) == t1
      && LabelOf(bands, Fin(b)) == Some(t2)
  {
    var bands := [Band(a, b, t1, None), Band(b, c, t2, None)];
    assert Selects(bands[0], None, b);
    assert !InHalfOpen(bands[0], Fin(b)) && InHalfOpen(bands[1], Fin(b));
  }

  /** `Number(valoresCompletos[k])`. */
  function NumberAt(completos: Values, k: string, parse: string -> JsNum): JsNum {
    ToNumber(Lookup(completos, k), parse)
  }

  /** `imc` and `get`; any other formula is not implemented. */
  function Compute(nombre: string, completos: Values, parse: string -> JsNum): (r: Option<JsNum>)
    ensures r.Some? <==> nombre == "imc" || nombre == "get"
  {
    if nombre == "imc" then
      Some(Div(NumberAt(completos, "peso", parse), Pow2(NumberAt(completos, "altura", parse))))
    else if nombre == "get" then Some(Mul(NumberAt(completos, "tmb", parse), NumberAt(completos, "factor_actividad", parse)))
    else None
  }

  /**
   * With a finite weight and height, imc is peso / altura² when the square
   * is non-zero, and not finite when it is zero.
   */
  lemma ImcArithmetic(completos: Values, parse: string -> JsNum)
    requires NumberAt(completos, "peso", parse).Fin? && NumberAt(completos, "altura", parse).Fin?
    ensures var peso := NumberAt(completos, "peso", parse).x;
      var cuadrado := Square(NumberAt(completos, "altura", parse).x);
      && (cuadrado != 0.0 ==> Compute("imc", completos, parse) == Some(Fin(peso / cuadrado)))
      && (cuadrado == 0.0 ==> !Compute("imc", completos, parse).value.Fin?)
  {
    var peso := NumberAt(completos, "peso", parse);
    var altura := NumberAt(completos, "altura", parse);
    assert Compute("imc", completos, parse) == Some(Div(peso, Pow2(altura)));
  }

  /** With a finite tmb and activity factor, get is their product. */
  lemma GetArithmetic(completos: Values, parse: string -> JsNum)
    requires NumberAt(completos, "tmb", parse).Fin? && NumberAt(completos, "factor_actividad", parse).Fin?
    ensures var tmb := NumberAt(completos, "tmb", parse).x;
      var factor := NumberAt(completos, "factor_actividad", parse).x;
      Compute("get", completos, parse) == Some(Fin(tmb * factor))
  {
    var t := NumberAt(completos, "tmb", parse);
    var f := NumberAt(completos, "factor_actividad", parse);
    assert Compute("get", completos, parse) == Some(Mul(t, f));
    assert Mul(t, f) == Fin(t.x * f.x);
  }

  /** A missing weight or height makes imc NaN, which no band labels. */
  lemma ImcWithoutHeightIsNaN(completos: Values, parse: string -> JsNum, bands: seq<Band>)
    requires "altura" !in completos
    ensures Compute("imc", completos, parse) == Some(NaN)
    ensures LabelOf(bands, NaN).None?
  {
  }

  // ---------------------------------------------------------------------
  // Resolution

  /**
   * The registry has no dependency cycle: `rank` strictly decreases from a
   * formula to every parameter of it that names a formula. The resolver
   * itself has no cycle guard.
   */
  ghost predicate Ranked(reg: Registry, rank: string -> nat) {
    forall i, j :: 0 <= i < |reg| && 0 <= j < |reg[i].1.parametros| && HasKey(reg, reg[i].1.parametros[j].nombre)
                   ==> rank(reg[i].1.parametros[j].nombre) < rank(reg[i].0)
  }

  /** The state of the parameter loop: the completed values, the missing names, the stored results and a dependency's error. */
  datatype Step = Step(completos: Values, faltantes: seq<string>, stored: seq<FormulaResult>, error: Option<string>)

  /** One resolution: its outcome and the results stored along the way, in order. */
  datatype Run = Run(outcome: Outcome, stored: seq<FormulaResult>)

  /** `items.join(sep)`. */
  function JoinWith(items: seq<string>, sep: string): string
    decreases |items|
  {
    if |items| == 0 then "" else if |items| == 1 then items[0] else items[0] + sep + JoinWith(items[1..], sep)
  }

  function NotFoundMessage(nombre: string): string { "Fórmula no encontrada: " + nombre }

  function MissingMessage(nombre: string, faltantes: seq<string>): string {
    "Faltan los siguientes datos para calcular " + nombre + ": " + JoinWith(faltantes, ", ")
  }

  function NotImplementedMessage(nombre: string): string { "Cálculo no implementado para: " + nombre }

  /** The dependencies of a formula have a smaller rank than it. */
  ghost predicate DepsBelow(reg: Registry, rank: string -> nat, nombre: string, ps: seq<Param>) {
    forall j :: 0 <= j < |ps| && HasKey(reg, ps[j].nombre) ==> rank(ps[j].nombre) < rank(nombre)
  }

  lemma RankedDeps(reg: Registry, rank: string -> nat, nombre: string)
    requires Ranked(reg, rank) && Get(reg, nombre).Some?
    ensures DepsBelow(reg, rank, nombre, Get(reg, nombre).value.parametros)
  {
    var i :| 0 <= i < |reg| && reg[i] == (nombre, Get(reg, nombre).value);
  }

  /** `resolverFormula(nombre, valores)`. */
  ghost function Resolve(reg: Registry, rank: string -> nat, parse: string -> JsNum, nombre: string, valores: Values): (r: Run)
    requires Ranked(reg, rank)
    decreases rank(nombre), 1
  {
    match Get(reg, nombre)
    case None => Run(Err(NotFoundMessage(nombre)), [])
    case Some(f) =>
      RankedDeps(reg, rank, nombre);
      var st := Loop(reg, rank, parse, nombre, f.parametros, 0, valores, Step(valores, [], [], None));
      if st.error.Some? then Run(Err(st.error.value), st.stored)
      else if |st.faltantes| > 0 then Run(Err(MissingMessage(nombre, st.faltantes)), st.stored)
      else match Compute(nombre, st.completos, parse)
        case None => Run(Err(NotImplementedMessage(nombre)), st.stored)
        case Some(v) =>
          var res := FormulaResult(nombre, v, LabelOf(f.interpretacion, v));
          Run(Ok(res), st.stored + [res])
  }

  /** The parameter loop from index `i`: fill from dependencies, collect plain parameters, stop at a dependency's error. */
  ghost function Loop(reg: Registry, rank: string -> nat, parse: string -> JsNum, nombre: string, ps: seq<Param>, i: nat,
                      valores: Values, st: Step): (r: Step)
    requires Ranked(reg, rank) && i <= |ps| && st.error.None?
    requires DepsBelow(reg, rank, nombre, ps)
    decreases rank(nombre), 0, |ps| - i
  {
    if i == |ps| then st
    else
      var n := ps[i].nombre;
      if n in st.completos then Loop(reg, rank, parse, nombre, ps, i + 1, valores, st)
      else if Get(reg, n).Some? then
        var dep := Resolve(reg, rank, parse, n, valores);
        match dep.outcome
        case Err(m) => st.(stored := st.stored + dep.stored, error := Some(m))
        case Ok(res) =>
          Loop(reg, rank, parse, nombre, ps, i + 1, valores,
               st.(completos := st.completos[n := PNum(res.resultado)], stored := st.stored + dep.stored))
      else Loop(reg, rank, parse, nombre, ps, i + 1, valores, st.(faltantes := st.faltantes + [n]))
  }

  // ---------------------------------------------------------------------
  // What a resolution guarantees

  /** An unknown name fails with its message and stores nothing. */
  lemma UnknownFormula(reg: Registry, rank: string -> nat, parse: string -> JsNum, nombre: string, valores: Values)
    requires Ranked(reg, rank) && !HasKey(reg, nombre)
    ensures Resolve(reg, rank, parse, nombre, valores) == Run(Err("Fórmula no encontrada: " + nombre), [])
  {
  }

  /** The names of the parameters from index `i` that are neither supplied nor formulas, in order. */
  function PlainMissing(reg: Registry, ps: seq<Param>, i: nat, valores: Values): (r: seq<string>)
    requires i <= |ps|
    decreases |ps| - i
  {
    if i == |ps| then []
    else if ps[i].nombre !in valores && !HasKey(reg, ps[i].nombre) then [ps[i].nombre] + PlainMissing(reg, ps, i + 1, valores)
    else PlainMissing(reg, ps, i + 1, valores)
  }

  /**
   * What the loop keeps: the caller's values are never overwritten, and
   * every other completed value is the result of resolving that name as a
   * formula from the caller's values.
   */
  ghost predicate Filled(reg: Registry, rank: string -> nat, parse: string -> JsNum, valores: Values, st: Step)
    requires Ranked(reg, rank)
  {
    && (forall k :: k in valores ==> k in st.completos && st.completos[k] == valores[k])
    && (forall k :: k in st.completos && k !in valores ==>
          Resolve(reg, rank, parse, k, valores).outcome.Ok?
          && st.completos[k] == PNum(Resolve(reg, rank, parse, k, valores).outcome.res.resultado))
  }

  /** The loop keeps `Filled` and only adds names. */
  lemma {:induction false} LoopFilled(reg: Registry, rank: string -> nat, parse: string -> JsNum, nombre: string, ps: seq<Param>,
                                      i: nat, valores: Values, st: Step)
    requires Ranked(reg, rank) && i <= |ps| && st.error.None?
    requires DepsBelow(reg, rank, nombre, ps)
    requires Filled(reg, rank, parse, valores, st)
    ensures Filled(reg, rank, parse, valores, Loop(reg, rank, parse, nombre, ps, i, valores, st))
    ensures st.completos.Keys <= Loop(reg, rank, parse, nombre, ps, i, valores, st).completos.Keys
    decreases |ps| - i
  {
    if i < |ps| {
      var n := ps[i].nombre;
      if n in st.completos {
        LoopFilled(reg, rank, parse, nombre, ps, i + 1, valores, st);
      } else if Get(reg, n).Some? {
        var dep := Resolve(reg, rank, parse, n, valores);
        if dep.outcome.Ok? {
          var st' := st.(completos := st.completos[n := PNum(dep.outcome.res.resultado)], stored := st.stored + dep.stored);
          FilledAdd(reg, rank, parse, valores, st, n);
          LoopFilled(reg, rank, parse, nombre, ps, i + 1, valores, st');
        }
      } else {
        LoopFilled(reg, rank, parse, nombre, ps, i + 1, valores, st.(faltantes := st.faltantes + [n]));
      }
    }
  }

  /** Adding a name's successful resolution keeps `Filled`. */
  lemma FilledAdd(reg: Registry, rank: string -> nat, parse: string -> JsNum, valores: Values, st: Step, n: string)
    requires Ranked(reg, rank) && Filled(reg, rank, parse, valores, st) && n !in st.completos
    requires Resolve(reg, rank, parse, n, valores).outcome.Ok?
    ensures var dep := Resolve(reg, rank, parse, n, valores);
      Filled(reg, rank, parse, valores,
             st.(completos := st.completos[n := PNum(dep.outcome.res.resultado)], stored := st.stored + dep.stored))
  {
  }

  /** A completed name the caller did not supply is a formula. */
  lemma FilledKnown(reg: Registry, rank: string -> nat, parse: string -> JsNum, valores: Values, st: Step, n: string)
    requires Ranked(reg, rank) && Filled(reg, rank, parse, valores, st) && n in st.completos
    ensures n in valores || HasKey(reg, n)
  {
    if n !in valores {
      OkResult(reg, rank, parse, n, valores);
    }
  }

  /** When no dependency fails, the missing list is the plain parameters without a value, in registry order. */
  lemma {:induction false} LoopMissing(reg: Registry, rank: string -> nat, parse: string -> JsNum, nombre: string, ps: seq<Param>,
                                       i: nat, valores: Values, st: Step)
    requires Ranked(reg, rank) && i <= |ps| && st.error.None?
    requires DepsBelow(reg, rank, nombre, ps)
    requires Filled(reg, rank, parse, valores, st)
    ensures var r := Loop(reg, rank, parse, nombre, ps, i, valores, st);
      r.error.None? ==> r.faltantes == st.faltantes + PlainMissing(reg, ps, i, valores)
    decreases |ps| - i
  {
    if i < |ps| {
      var n := ps[i].nombre;
      var next: Step;
      if n in st.completos {
        FilledKnown(reg, rank, parse, valores, st, n);
        next := st;
      } else if Get(reg, n).Some? {
        var dep := Resolve(reg, rank, parse, n, valores);
        if dep.outcome.Err? {
          return;
        }
        next := st.(completos := st.completos[n := PNum(dep.outcome.res.resultado)], stored := st.stored + dep.stored);
        FilledAdd(reg, rank, parse, valores, st, n);
      } else {
        next := st.(faltantes := st.faltantes + [n]);
        assert n !in valores;
      }
      assert Loop(reg, rank, parse, nombre, ps, i, valores, st) == Loop(reg, rank, parse, nombre, ps, i + 1, valores, next);
      assert next.faltantes + PlainMissing(reg, ps, i + 1, valores) == st.faltantes + PlainMissing(reg, ps, i, valores);
      LoopMissing(reg, rank, parse, nombre, ps, i + 1, valores, next);
    }
  }

  /** When no dependency fails, the parameter at `j` that names a formula ends up filled. */
  lemma {:induction false} LoopDep(reg: Registry, rank: string -> nat, parse: string -> JsNum, nombre: string, ps: seq<Param>,
                                   i: nat, valores: Values, st: Step, j: nat)
    requires Ranked(reg, rank) && i <= j < |ps| && st.error.None?
    requires DepsBelow(reg, rank, nombre, ps)
    requires Filled(reg, rank, parse, valores, st)
    requires HasKey(reg, ps[j].nombre)
    ensures var r := Loop(reg, rank, parse, nombre, ps, i, valores, st);
      r.error.None? ==> ps[j].nombre in r.completos
    decreases |ps| - i
  {
    var n := ps[i].nombre;
    var next: Step;
    if n in st.completos {
      next := st;
    } else if Get(reg, n).Some? {
      var dep := Resolve(reg, rank, parse, n, valores);
      if dep.outcome.Err? {
        return;
      }
      next := st.(completos := st.completos[n := PNum(dep.outcome.res.resultado)], stored := st.stored + dep.stored);
      FilledAdd(reg, rank, parse, valores, st, n);
    } else {
      next := st.(faltantes := st.faltantes + [n]);
    }
    assert Loop(reg, rank, parse, nombre, ps, i, valores, st) == Loop(reg, rank, parse, nombre, ps, i + 1, valores, next);
    if j == i {
      if i + 1 < |ps| {
        LoopFilled(reg, rank, parse, nombre, ps, i + 1, valores, next);
      }
    } else {
      LoopDep(reg, rank, parse, nombre, ps, i + 1, valores, next, j);
    }
  }

  /** The loop's outcome for a known formula. */
  ghost function LoopOf(reg: Registry, rank: string -> nat, parse: string -> JsNum, nombre: string, valores: Values): Step
    requires Ranked(reg, rank) && HasKey(reg, nombre)
  {
    RankedDeps(reg, rank, nombre);
    Loop(reg, rank, parse, nombre, Get(reg, nombre).value.parametros, 0, valores, Step(valores, [], [], None))
  }

  /**
   * For a known formula: the caller's values are kept, and when no
   * dependency fails, each unsupplied parameter that names a formula takes
   * that formula's result, resolved from the caller's values.
   */
  lemma DependenciesSubstituted(reg: Registry, rank: string -> nat, parse: string -> JsNum, nombre: string, valores: Values)
    requires Ranked(reg, rank) && HasKey(reg, nombre)
    ensures var ps := Get(reg, nombre).value.parametros;
      var st := LoopOf(reg, rank, parse, nombre, valores);
      && (forall k :: k in valores ==> k in st.completos && st.completos[k] == valores[k])
      && (st.error.None? ==> forall j :: 0 <= j < |ps| && ps[j].nombre !in valores && HasKey(reg, ps[j].nombre) ==>
            && Resolve(reg, rank, parse, ps[j].nombre, valores).outcome.Ok?
            && ps[j].nombre in st.completos
            && st.completos[ps[j].nombre] == PNum(Resolve(reg, rank, parse, ps[j].nombre, valores).outcome.res.resultado))
  {
    var ps := Get(reg, nombre).value.parametros;
    RankedDeps(reg, rank, nombre);
    var st0 := Step(valores, [], [], None);
    LoopFilled(reg, rank, parse, nombre, ps, 0, valores, st0);
    forall j | 0 <= j < |ps| && HasKey(reg, ps[j].nombre)
      ensures Loop(reg, rank, parse, nombre, ps, 0, valores, st0).error.None? ==>
                ps[j].nombre in Loop(reg, rank, parse, nombre, ps, 0, valores, st0).completos
    {
      LoopDep(reg, rank, parse, nombre, ps, 0, valores, st0, j);
    }
  }

  /** A dependency's error is the call's error; a missing plain parameter fails the call listing every such parameter in registry order; otherwise exactly `imc` and `get` succeed. */
  lemma ResolveCases(reg: Registry, rank: string -> nat, parse: string -> JsNum, nombre: string, valores: Values)
    requires Ranked(reg, rank) && HasKey(reg, nombre)
    ensures var miss := PlainMissing(reg, Get(reg, nombre).value.parametros, 0, valores);
      var st := LoopOf(reg, rank, parse, nombre, valores);
      var out := Resolve(reg, rank, parse, nombre, valores).outcome;
      && (st.error.Some? ==> out == Err(st.error.value))
      && (st.error.None? && miss != [] ==> out == Err(MissingMessage(nombre, miss)))
      && (st.error.None? && miss == [] ==> (out.Ok? <==> nombre in {"imc", "get"}))
  {
    var ps := Get(reg, nombre).value.parametros;
    RankedDeps(reg, rank, nombre);
    var st0 := Step(valores, [], [], None);
    LoopMissing(reg, rank, parse, nombre, ps, 0, valores, st0);
    var st := Loop(reg, rank, parse, nombre, ps, 0, valores, st0);
    assert st == LoopOf(reg, rank, parse, nombre, valores);
    if st.error.None? {
      assert st.faltantes == PlainMissing(reg, ps, 0, valores);
    }
  }

  /**
   * A successful resolution returns the formula's own name, its computed
   * value and the first half-open band's text, and the last stored result
   * is that result.
   */
  lemma OkResult(reg: Registry, rank: string -> nat, parse: string -> JsNum, nombre: string, valores: Values)
    requires Ranked(reg, rank)
    ensures var r := Resolve(reg, rank, parse, nombre, valores);
      r.outcome.Ok? ==>
        && HasKey(reg, nombre) && nombre in {"imc", "get"}
        && r.outcome.res.nombre == nombre
        && r.outcome.res.interpretacion == LabelOf(Get(reg, nombre).value.interpretacion, r.outcome.res.resultado)
        && |r.stored| > 0 && r.stored[|r.stored| - 1] == r.outcome.res
  {
  }

  // ---------------------------------------------------------------------
  // The stored results

  /** `setResultados(prev => ({...prev, [nombre]: res}))`, once per stored result, in order. */
  function Apply(m: map<string, FormulaResult>, stored: seq<FormulaResult>): (r: map<string, FormulaResult>)
    ensures r.Keys == m.Keys + set i | 0 <= i < |stored| :: stored[i].nombre
    decreases |stored|
  {
    if |stored| == 0 then m
    else
      var r := Apply(m[stored[0].nombre := stored[0]], stored[1..]);
      assert forall i :: 1 <= i < |stored| ==> stored[1..][i - 1] == stored[i];
      r
  }

  lemma {:induction false} ApplyConcat(m: map<string, FormulaResult>, a: seq<FormulaResult>, b: seq<FormulaResult>)
    ensures Apply(m, a + b) == Apply(Apply(m, a), b)
    decreases |a|
  {
    if |a| > 0 {
      assert (a + b)[0] == a[0];
      assert (a + b)[1..] == a[1..] + b;
      ApplyConcat(m[a[0].nombre := a[0]], a[1..], b);
      assert Apply(m, a) == Apply(m[a[0].nombre := a[0]], a[1..]);
    } else {
      assert a + b == b;
    }
  }

  /** The later store of a name wins: after a run, the name of its last result maps to that result. */
  lemma ApplyLast(m: map<string, FormulaResult>, stored: seq<FormulaResult>, res: FormulaResult)
    ensures res.nombre in Apply(m, stored + [res]) && Apply(m, stored + [res])[res.nombre] == res
  {
    ApplyConcat(m, stored, [res]);
    assert [res][1..] == [];
  }

  /** Names that are not stored keep their entries. */
  lemma {:induction false} ApplyOthers(m: map<string, FormulaResult>, stored: seq<FormulaResult>, k: string)
    requires forall i :: 0 <= i < |stored| ==> stored[i].nombre != k
    ensures k in m ==> k in Apply(m, stored) && Apply(m, stored)[k] == m[k]
    decreases |stored|
  {
    if |stored| > 0 {
      assert forall i :: 1 <= i < |stored| ==> stored[1..][i - 1] == stored[i];
      ApplyOthers(m[stored[0].nombre := stored[0]], stored[1..], k);
    }
  }

  // ---------------------------------------------------------------------
  // The hook

  /** The hook's state: the registry it was loaded with and the `resultados` it keeps. */
  class FormulaResolver {
    const formulas: Registry
    const parse: string -> JsNum
    ghost const rank: string -> nat
    var resultados: map<string, FormulaResult>

    /** `useState({})`. */
    constructor (formulas: Registry, parse: string -> JsNum, ghost rank: string -> nat)
      ensures this.formulas == formulas && this.parse == parse && this.rank == rank
      ensures resultados == map[]
    {
      this.formulas := formulas;
      this.parse := parse;
      this.rank := rank;
      resultados := map[];
    }

    /** `resolverFormula(nombre, valores)`: the outcome of `Resolve`, and every result it stores, in order. */
    method ResolverFormula(nombre: string, valores: Values) returns (r: Outcome)
      requires Ranked(formulas, rank)
      modifies this
      ensures r == Resolve(formulas, rank, parse, nombre, valores).outcome
      ensures resultados == Apply(old(resultados), Resolve(formulas, rank, parse, nombre, valores).stored)
      decreases rank(nombre)
    {
      var f := Get(formulas, nombre);
      if f.None? {
        return Err(NotFoundMessage(nombre));
      }
      RankedDeps(formulas, rank, nombre);
      var ps := f.value.parametros;
      ghost var start := Loop(formulas, rank, parse, nombre, ps, 0, valores, Step(valores, [], [], None));
      var completos := valores;
      var faltantes: seq<string> := [];
      ghost var stored: seq<FormulaResult> := [];
      var i := 0;
      while i < |ps|
        invariant 0 <= i <= |ps|
        invariant start == Loop(formulas, rank, parse, nombre, ps, i, valores, Step(completos, faltantes, stored, None))
        invariant resultados == Apply(old(resultados), stored)
      {
        var n := ps[i].nombre;
        if n !in completos {
          if Get(formulas, n).Some? {
            ghost var run := Resolve(formulas, rank, parse, n, valores);
            var dep := ResolverFormula(n, valores);
            ApplyConcat(old(resultados), stored, run.stored);
            stored := stored + run.stored;
            if dep.Err? {
              return dep;
            }
            completos := completos[n := PNum(dep.res.resultado)];
          } else {
            faltantes := faltantes + [n];
          }
        }
        i := i + 1;
      }
      if |faltantes| > 0 {
        return Err(MissingMessage(nombre, faltantes));
      }
      var v := Compute(nombre, completos, parse);
      if v.None? {
        return Err(NotImplementedMessage(nombre));
      }
      var res := FormulaResult(nombre, v.value, LabelOf(f.value.interpretacion, v.value));
      ApplyConcat(old(resultados), stored, [res]);
      resultados := resultados[nombre := res];
      return Ok(res);
    }
  }

  /**
   * After a successful call, `resultados` holds the result under the
   * formula's name; names that the call did not store keep their entries.
   */
  lemma StoredAfterOk(reg: Registry, rank: string -> nat, parse: string -> JsNum, nombre: string, valores: Values,
                      before: map<string, FormulaResult>, k: string)
    requires Ranked(reg, rank)
    ensures var run := Resolve(reg, rank, parse, nombre, valores);
      && (run.outcome.Ok? ==> nombre in Apply(before, run.stored) && Apply(before, run.stored)[nombre] == run.outcome.res)
      && ((forall i :: 0 <= i < |run.stored| ==> run.stored[i].nombre != k) && k in before ==>
            Apply(before, run.stored)[k] == before[k])
  {
    var run := Resolve(reg, rank, parse, nombre, valores);
    if run.outcome.Ok? {
      OkResult(reg, rank, parse, nombre, valores);
      var n := |run.stored|;
      assert run.stored == run.stored[..n - 1] + [run.outcome.res];
      ApplyLast(before, run.stored[..n - 1], run.outcome.res);
    }
    if (forall i :: 0 <= i < |run.stored| ==> run.stored[i].nombre != k) && k in before {
      ApplyOthers(before, run.stored, k);
    }
  }
}
