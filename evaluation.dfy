/**
 * The two calculations the chat backend carries out itself once every
 * parameter is present: the body-mass index and the body-composition
 * report.
 *
 * A parameter is read back with `float(...)` or `int(...)`; a missing or
 * unreadable one raises, and so does a division by zero, and the backend
 * turns any exception into an error reply. The model keeps that as one
 * failure outcome. The two transcendental inputs of the composition
 * report, π and `log10`, are parameters.
 */
module Evaluation {
  import opened Options
  import opened Text
  import opened Formulas
  import opened Numeric
  import opened Classify
  import opened Extraction

  /** `float(params.get(k))`: the number stored under `k`, or none when it is missing or not a number. */
  function NumParam(p: Params, k: string): Option<real> {
    if k in p && p[k].Num? then Some(p[k].x) else None
  }

  /** `int(params.get(k))`: the stored number when it is whole. */
  function IntParam(p: Params, k: string): Option<int> {
    if k in p && p[k].Num? && p[k].x.Floor as real == p[k].x then Some(p[k].x.Floor) else None
  }

  /** `params.get("sexo", "").upper() == "M"`. */
  predicate IsMale(p: Params) {
    "sexo" in p && p["sexo"].Letter? && UpperChar(p["sexo"].c) == 'M'
  }

  // ---------------------------------------------------------------------
  // IMC

  datatype ImcOutcome =
    | ImcHeightError                 // "Error: La altura debe ser mayor a cero."
    | ImcFailure                     // "Error al calcular el IMC: …"
    | ImcDone(peso: real, altura: real, imc: real, interpretacion: string)

  /** Weight over height squared. */
  function Quetelet(peso: real, altura: real): real
    requires altura != 0.0
  {
    peso / (altura * altura)
  }

  /** The IMC calculation: `round(peso / altura², 2)` labelled by the first band holding it. */
  function EvalImc(p: Params, bands: seq<Band>): (r: ImcOutcome)
    ensures r.ImcFailure? <==> NumParam(p, "peso").None? || NumParam(p, "altura").None?
    ensures r.ImcHeightError? <==> NumParam(p, "peso").Some? && NumParam(p, "altura").Some? && NumParam(p, "altura").value <= 0.0
    ensures r.ImcDone? ==> r.peso == NumParam(p, "peso").value && r.altura == NumParam(p, "altura").value
    ensures r.ImcDone? ==> r.altura > 0.0 && OnGrid(r.imc, 2)
    ensures r.ImcDone? ==> Near(r.imc, Quetelet(r.peso, r.altura), 2)
    ensures r.ImcDone? ==> r.interpretacion == FirstBandText(bands, None, r.imc)
  {
    match (NumParam(p, "peso"), NumParam(p, "altura"))
    case (Some(peso), Some(altura)) =>
      if altura <= 0.0 then ImcHeightError
      else
        var imc := Round(Quetelet(peso, altura), 2);
        ImcDone(peso, altura, imc, FirstBandText(bands, None, imc))
    case _ => ImcFailure
  }

  /** Extracted parameters always hold a positive height: the height error is unreachable from the chat. */
  lemma ImcHeightErrorUnreachable(p: Params, bands: seq<Band>)
    requires WellFormed(p) && "peso" in p && "altura" in p
    ensures EvalImc(p, bands).ImcDone?
  {
    assert ValueOk("peso", p["peso"]) && ValueOk("altura", p["altura"]);
  }

  // ---------------------------------------------------------------------
  // Body composition

  /** The measurements the report is computed from. */
  datatype Inputs = Inputs(peso: real, altura: real, edad: int, male: bool,
                           cmb: real, pct: real, pcb: real, pcse: real, pci: real)

  /** All nine readings, when each can be read back. */
  function ReadInputs(p: Params): (r: Option<Inputs>)
    ensures r.Some? <==> NumParam(p, "peso").Some? && NumParam(p, "altura").Some? && IntParam(p, "edad").Some?
                         && NumParam(p, "cmb").Some? && NumParam(p, "pct").Some? && NumParam(p, "pcb").Some?
                         && NumParam(p, "pcse").Some? && NumParam(p, "pci").Some?
  {
    match (NumParam(p, "peso"), NumParam(p, "altura"), IntParam(p, "edad"), NumParam(p, "cmb"))
    case (Some(peso), Some(altura), Some(edad), Some(cmb)) =>
      (match (NumParam(p, "pct"), NumParam(p, "pcb"), NumParam(p, "pcse"), NumParam(p, "pci"))
       case (Some(pct), Some(pcb), Some(pcse), Some(pci)) =>
         Some(Inputs(peso, altura, edad, IsMale(p), cmb, pct, pcb, pcse, pci))
       case _ => None)
    case _ => None
  }

  /** `altura <= 0 or cmb <= 0 or` any skinfold `<= 0`. */
  predicate NotPositive(m: Inputs) {
    m.altura <= 0.0 || m.cmb <= 0.0 || m.pct <= 0.0 || m.pcb <= 0.0 || m.pcse <= 0.0 || m.pci <= 0.0
  }

  /** The muscle results: AMBd, its percentage of the reference, and total muscle mass. */
  datatype Muscle = Muscle(ambd: real, porcentajeAmbd: real, interpretacionAmbd: string,
                           mmt: real, interpretacionMmt: string)

  /** A band text for `parametro`, or the fixed chain when there is none (or it is empty). */
  function BandOr(bands: seq<Band>, parametro: string, x: real, fallback: string): (r: string)
    ensures FirstBandText(bands, Some(parametro), x) != "" ==> r == FirstBandText(bands, Some(parametro), x)
    ensures FirstBandText(bands, Some(parametro), x) == "" ==> r == fallback
  {
    var t := FirstBandText(bands, Some(parametro), x);
    if t == "" then fallback else t
  }

  function MuscleOf(m: Inputs, bands: seq<Band>, pi: real): Muscle
    requires pi > 0.0
  {
    var pctCm := m.pct / 10.0;
    var constante := if m.male then -10.0 else -6.5;
    var d := m.cmb - pi * pctCm;
    var ambd := Round(d * d / (4.0 * pi) + constante, 2);
    var referencia := if m.male then 50.0 else 35.0;
    var porcentaje := Round(ambd / referencia * 100.0, 1);
    var mmt := Round(m.altura * 100.0 * (0.0264 + 0.0029 * ambd), 2);
    Muscle(ambd, porcentaje, BandOr(bands, "ambd", porcentaje, AmbdText(porcentaje)),
           mmt, BandOr(bands, "mmt", mmt, MmtText(mmt)))
  }

  /** Durnin-Womersley: `round(c - m·log10(sum of skinfolds), 4)` with the constants by sex. */
  function Densidad(m: Inputs, log10: real -> real): real {
    var suma := m.pct + m.pcb + m.pcse + m.pci;
    var c := if m.male then 1.1765 else 1.1567;
    var k := if m.male then 0.0744 else 0.0717;
    Round(c - k * log10(suma), 4)
  }

  /** The fat and fat-free results. */
  datatype Fat = Fat(porcentajeGrasa: real, interpretacionGrasa: string, kgGrasa: real, masaLibreGrasa: real,
                     imlg: real, interpretacionImlg: string, masaGrasa: real, masaMagra: real)

  function FatOf(m: Inputs, densidad: real): (f: Fat)
    requires densidad != 0.0 && m.altura > 0.0
    ensures OnGrid(f.porcentajeGrasa, 1)
    ensures f.interpretacionGrasa == GrasaText(m.male, m.edad, f.porcentajeGrasa)
  {
    var pg := Round((4.95 / densidad - 4.5) * 100.0, 1);
    var kg := Round(pg / 100.0 * m.peso, 2);
    var mlg := Round(m.peso - kg, 2);
    var imlg := Round(mlg / (m.altura * m.altura), 2);
    var mg := Round(m.peso * pg / 100.0, 2);
    Fat(pg, GrasaText(m.male, m.edad, pg), kg, mlg, imlg, ImlgText(m.male, imlg), mg, Round(m.peso - mg, 2))
  }

  /** The water results: total, intracellular and extracellular. */
  datatype Water = Water(act: real, aci: real, ae: real)

  function WaterOf(m: Inputs): Water {
    var e := m.edad as real;
    var act := if m.male then Round((m.peso * 69.81 - 0.26 * m.peso - 0.12 * e) / 100.0, 2)
               else Round((m.peso * 79.45 - 0.24 * m.peso - 0.15 * e) / 100.0, 2);
    var fraccion := if m.male then (52.3 - 0.07 * e) / 100.0 else (62.3 - 0.16 * e) / 100.0;
    var aci := Round(fraccion * act, 2);
    Water(act, aci, Round(act - aci, 2))
  }

  /** The arm areas with the fixed 12.5664 (4π) and 3.1416 (π). */
  datatype Arm = Arm(areaBrazo: real, areaMuscular: real, areaGrasa: real)

  function ArmOf(m: Inputs): Arm {
    var ab := Round(m.cmb * m.cmb / 12.5664, 2);
    var d := m.cmb - 3.1416 * (m.pct / 10.0);
    var amb := Round(d * d / 12.5664, 2);
    Arm(ab, amb, Round(ab - amb, 2))
  }

  /** The report, figure by figure, as its results section lists them. */
  datatype Report = Report(
    imc: real, interpretacionImc: string,
    muscle: Muscle,
    densidad: real, interpretacionDensidad: string,
    fat: Fat,
    water: Water,
    arm: Arm,
    iag: real, interpretacionIag: string,
    porcentajePct: real, interpretacionPct: string,
    porcentajeCmb: real, interpretacionCmb: string)

  datatype CompOutcome =
    | CompGuardError        // "Error: Todos los valores deben ser mayores a cero."
    | CompFailure           // "Error al calcular la composición corporal: …"
    | CompDone(report: Report)

  /** The conditions under which one of the report's divisions or lookups raises. */
  predicate Raises(m: Inputs, densidad: real, arm: Arm, water: Water, imcBands: Option<seq<Band>>) {
    densidad == 0.0 || arm.areaBrazo == 0.0 || imcBands.None? || m.peso == 0.0 || water.act == 0.0
  }

  /** `a / b * 100`, a percentage of `b`. */
  function Percent(a: real, b: real): real
    requires b != 0.0
  {
    a / b * 100.0
  }

  /** The report for measurements that pass the guard and raise nowhere. */
  function ReportOf(m: Inputs, densidad: real, arm: Arm, water: Water,
                    bands: seq<Band>, imcBands: seq<Band>, pi: real): (rep: Report)
    requires pi > 0.0 && !NotPositive(m) && densidad != 0.0 && arm.areaBrazo != 0.0
    ensures rep.densidad == densidad && rep.arm == arm && rep.water == water
    ensures rep.muscle == MuscleOf(m, bands, pi) && rep.fat == FatOf(m, densidad)
    ensures rep.interpretacionDensidad == BandOr(bands, "densidad", densidad, DensidadText(densidad))
    ensures OnGrid(rep.iag, 2) && Near(rep.iag, Percent(arm.areaGrasa, arm.areaBrazo), 2)
    ensures rep.interpretacionIag == IagText(rep.iag)
    ensures Near(rep.porcentajePct, Percent(m.pct, if m.male then 12.5 else 16.5), 1)
    ensures rep.interpretacionPct == PctText(rep.porcentajePct)
    ensures Near(rep.porcentajeCmb, Percent(m.cmb, if m.male then 25.3 else 23.2), 1)
    ensures rep.interpretacionCmb == CmbText(rep.porcentajeCmb)
    ensures Near(rep.imc, Quetelet(m.peso, m.altura), 2)
    ensures rep.interpretacionImc == FirstBandText(imcBands, None, rep.imc)
  {
    var iag := Round(Percent(arm.areaGrasa, arm.areaBrazo), 2);
    var porcentajePct := Round(Percent(m.pct, if m.male then 12.5 else 16.5), 1);
    var porcentajeCmb := Round(Percent(m.cmb, if m.male then 25.3 else 23.2), 1);
    var imc := Round(Quetelet(m.peso, m.altura), 2);
    Report(
      imc, FirstBandText(imcBands, None, imc),
      MuscleOf(m, bands, pi),
      densidad, BandOr(bands, "densidad", densidad, DensidadText(densidad)),
      FatOf(m, densidad),
      water, arm,
      iag, IagText(iag),
      porcentajePct, PctText(porcentajePct),
      porcentajeCmb, CmbText(porcentajeCmb))
  }

  /**
   * The composition calculation. `bands` are the composition formula's
   * interpretation rows, `imcBands` those of the registry's `imc` formula
   * (none when the registry has no such key).
   */
  function EvalComposition(p: Params, bands: seq<Band>, imcBands: Option<seq<Band>>, pi: real, log10: real -> real): (r: CompOutcome)
    requires pi > 0.0
    ensures r.CompGuardError? <==> ReadInputs(p).Some? && NotPositive(ReadInputs(p).value)
    ensures r.CompFailure? <==> ReadInputs(p).None?
                                || (!NotPositive(ReadInputs(p).value)
                                    && Raises(ReadInputs(p).value, Densidad(ReadInputs(p).value, log10),
                                              ArmOf(ReadInputs(p).value), WaterOf(ReadInputs(p).value), imcBands))
    ensures r.CompDone? ==> var m := ReadInputs(p).value;
      && !NotPositive(m) && imcBands.Some?
      && Densidad(m, log10) != 0.0 && ArmOf(m).areaBrazo != 0.0
      && r.report == ReportOf(m, Densidad(m, log10), ArmOf(m), WaterOf(m), bands, imcBands.value, pi)
  {
    match ReadInputs(p)
    case None => CompFailure
    case Some(m) =>
      if NotPositive(m) then CompGuardError
      else
        var densidad := Densidad(m, log10);
        var arm := ArmOf(m);
        var water := WaterOf(m);
        if Raises(m, densidad, arm, water, imcBands) then CompFailure
        else CompDone(ReportOf(m, densidad, arm, water, bands, imcBands.value, pi))
  }

  /** A positive lower bound survives rounding to two places. */
  lemma RoundedAbove(x: real, lo: real)
    requires x >= lo && lo > 0.01
    ensures Round(x, 2) > 0.0
  {
    assert Near(Round(x, 2), x, 2);
  }

  /** The ranges the extractor enforces on each reading. */
  predicate InRange(m: Inputs) {
    30.0 <= m.peso <= 200.0 && 1.0 <= m.altura && 10 <= m.edad <= 120 && 15.0 <= m.cmb
    && 3.0 <= m.pct && 3.0 <= m.pcb && 3.0 <= m.pcse && 3.0 <= m.pci
  }

  /** In range, the arm area and the total body water are positive. */
  lemma ArmWaterPositive(m: Inputs)
    requires InRange(m)
    ensures ArmOf(m).areaBrazo > 0.0 && WaterOf(m).act > 0.0
  {
    assert m.cmb * m.cmb >= 225.0 by {
      assert m.cmb * m.cmb >= 15.0 * m.cmb;
    }
    RoundedAbove(m.cmb * m.cmb / 12.5664, 17.0);
    var e := m.edad as real;
    if m.male {
      RoundedAbove((m.peso * 69.81 - 0.26 * m.peso - 0.12 * e) / 100.0, 20.0);
    } else {
      RoundedAbove((m.peso * 79.45 - 0.24 * m.peso - 0.15 * e) / 100.0, 20.0);
    }
  }

  /** The readings of a well-formed parameter map holding every measurement. */
  lemma ReadInRange(p: Params)
    requires WellFormed(p)
    requires forall k :: k in ParamNames - {"sexo"} ==> k in p
    ensures ReadInputs(p).Some? && InRange(ReadInputs(p).value)
  {
    forall k | k in ParamNames - {"sexo"} ensures ValueOk(k, p[k]) && p[k].Num? {
      assert k in p;
    }
    assert IntParam(p, "edad").Some?;
  }

  /**
   * With the measurements the extractor accepts, the guard never fires and
   * the only divisions that can raise are those by the body density and the
   * lookup of the registry's IMC formula.
   */
  lemma CompositionOnExtracted(p: Params, bands: seq<Band>, imcBands: Option<seq<Band>>, pi: real, log10: real -> real)
    requires pi > 0.0 && WellFormed(p)
    requires forall k :: k in ParamNames - {"sexo"} ==> k in p
    ensures ReadInputs(p).Some?
    ensures !EvalComposition(p, bands, imcBands, pi, log10).CompGuardError?
    ensures EvalComposition(p, bands, imcBands, pi, log10).CompFailure?
            <==> Densidad(ReadInputs(p).value, log10) == 0.0 || imcBands.None?
  {
    ReadInRange(p);
    ArmWaterPositive(ReadInputs(p).value);
  }
}
