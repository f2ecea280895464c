/**
 * The fixed threshold chains that label the body-composition results.
 *
 * Most chains are `if x >= c0: … elif x >= c1: … else: …` over falling cut
 * points; the label is a table entry picked by the number of the first cut
 * point reached. The fat-percentage chain by sex and age is written out.
 */
module Classify {
  import opened Numeric

  // ---------------------------------------------------------------------
  // Falling cut points: `if x >= c0 … elif x >= c1 … else`

  /** The index of the first cut point `x` reaches, or `|cuts|` when it reaches none. */
  function Level(x: real, cuts: seq<real>): (n: nat)
    ensures n <= |cuts|
    ensures n < |cuts| ==> x >= cuts[n]
    ensures forall i :: 0 <= i < n ==> x < cuts[i]
    decreases |cuts|
  {
    if |cuts| == 0 then 0 else if x >= cuts[0] then 0 else 1 + Level(x, cuts[1..])
  }

  predicate Falling(cuts: seq<real>) {
    forall i, j :: 0 <= i < j < |cuts| ==> cuts[i] > cuts[j]
  }

  /** With falling cut points, a larger value never gets a later (worse) label. */
  lemma {:induction false} LevelAntitone(x: real, y: real, cuts: seq<real>)
    requires x <= y && Falling(cuts)
    ensures Level(y, cuts) <= Level(x, cuts)
    decreases |cuts|
  {
    if |cuts| > 0 && y < cuts[0] {
      assert Falling(cuts[1..]) by {
        forall i, j | 0 <= i < j < |cuts[1..]| ensures cuts[1..][i] > cuts[1..][j] {
          assert cuts[1..][i] == cuts[i + 1] && cuts[1..][j] == cuts[j + 1];
        }
      }
      LevelAntitone(x, y, cuts[1..]);
    }
  }

  /** With falling cut points the level is exactly the interval `x` lies in. */
  lemma {:induction false} LevelInterval(x: real, cuts: seq<real>, n: nat)
    requires Falling(cuts) && n <= |cuts|
    requires n < |cuts| ==> x >= cuts[n]
    requires n > 0 ==> x < cuts[n - 1]
    ensures Level(x, cuts) == n
    decreases n
  {
    if n > 0 {
      assert x < cuts[0] by {
        if n > 1 { assert cuts[0] > cuts[n - 1]; }
      }
      assert Falling(cuts[1..]) by {
        forall i, j | 0 <= i < j < |cuts[1..]| ensures cuts[1..][i] > cuts[1..][j] {
          assert cuts[1..][i] == cuts[i + 1] && cuts[1..][j] == cuts[j + 1];
        }
      }
      LevelInterval(x, cuts[1..], n - 1);
    }
  }

  const AmbdCuts: seq<real> := [80.0, 60.0, 40.0]
  const AmbdLabels: seq<string> := ["Área muscular normal", "Deficiencia leve", "Deficiencia moderada", "Deficiencia severa"]

  const MmtCuts: seq<real> := [25.0, 20.0]
  const MmtLabels: seq<string> := ["Masa muscular total normal", "Masa muscular baja", "Masa muscular muy baja"]

  const DensidadCuts: seq<real> := [1.050, 1.030]
  const DensidadLabels: seq<string> := ["Densidad corporal normal", "Densidad corporal baja", "Densidad corporal muy baja"]

  const PctCuts: seq<real> := [100.0, 65.0, 40.0]
  const PctLabels: seq<string> := ["Normal", "Desnutrición leve", "Desnutrición moderada", "Desnutrición severa"]

  const CmbCuts: seq<real> := [90.0, 85.0, 75.0]
  const CmbLabels: seq<string> := ["Normal", "Desnutrición leve", "Desnutrición moderada", "Desnutrición severa"]

  /** The label of `x`: the entry of `labels` at its level. */
  function Label(x: real, cuts: seq<real>, labels: seq<string>): string
    requires |labels| == |cuts| + 1
  {
    labels[Level(x, cuts)]
  }

  /** The fallback label of the arm-muscle percentage (AMBd). */
  function AmbdText(p: real): string { Label(p, AmbdCuts, AmbdLabels) }
  /** The fallback label of the total muscle mass. */
  function MmtText(mmt: real): string { Label(mmt, MmtCuts, MmtLabels) }
  /** The fallback label of the body density. */
  function DensidadText(d: real): string { Label(d, DensidadCuts, DensidadLabels) }
  /** The label of the triceps-skinfold percentage. */
  function PctText(p: real): string { Label(p, PctCuts, PctLabels) }
  /** The label of the mid-arm-circumference percentage. */
  function CmbText(p: real): string { Label(p, CmbCuts, CmbLabels) }

  /** The five tables fall, so every one of these labels gets no worse as its value grows. */
  lemma TablesFall()
    ensures Falling(AmbdCuts) && Falling(MmtCuts) && Falling(DensidadCuts) && Falling(PctCuts) && Falling(CmbCuts)
  {
  }

  /** The %PCT cut points: 100 and above normal, 65 to 100 mild, 40 to 65 moderate, below 40 severe. */
  lemma PctBands(p: real)
    ensures p >= 100.0 ==> PctText(p) == "Normal"
    ensures 65.0 <= p < 100.0 ==> PctText(p) == "Desnutrición leve"
    ensures 40.0 <= p < 65.0 ==> PctText(p) == "Desnutrición moderada"
    ensures p < 40.0 ==> PctText(p) == "Desnutrición severa"
  {
    TablesFall();
    if p >= 100.0 { LevelInterval(p, PctCuts, 0); }
    else if p >= 65.0 { LevelInterval(p, PctCuts, 1); }
    else if p >= 40.0 { LevelInterval(p, PctCuts, 2); }
    else { LevelInterval(p, PctCuts, 3); }
  }

  /** The %CMB cut points: 90 and above normal, 85 to 90 mild, 75 to 85 moderate, below 75 severe. */
  lemma CmbBands(p: real)
    ensures p >= 90.0 ==> CmbText(p) == "Normal"
    ensures 85.0 <= p < 90.0 ==> CmbText(p) == "Desnutrición leve"
    ensures 75.0 <= p < 85.0 ==> CmbText(p) == "Desnutrición moderada"
    ensures p < 75.0 ==> CmbText(p) == "Desnutrición severa"
  {
    TablesFall();
    if p >= 90.0 { LevelInterval(p, CmbCuts, 0); }
    else if p >= 85.0 { LevelInterval(p, CmbCuts, 1); }
    else if p >= 75.0 { LevelInterval(p, CmbCuts, 2); }
    else { LevelInterval(p, CmbCuts, 3); }
  }

  // ---------------------------------------------------------------------
  // Fat-area index (IAG)

  const IagLabels: seq<string> := ["Desgastado", "Debajo del promedio", "Promedio", "Arriba del promedio", "Exceso de grasa"]

  /** `iag < 5`, `5 <= iag < 15`, `15 <= iag <= 85`, `85 < iag <= 95`, else. */
  function IagLevel(iag: real): (n: nat)
    ensures n < |IagLabels|
  {
    if iag < 5.0 then 0
    else if 5.0 <= iag < 15.0 then 1
    else if 15.0 <= iag <= 85.0 then 2
    else if 85.0 < iag <= 95.0 then 3
    else 4
  }

  function IagText(iag: real): string { IagLabels[IagLevel(iag)] }

  /** The IAG chain leaves no gap: each label covers one interval and the intervals follow each other. */
  lemma IagBands(iag: real)
    ensures IagText(iag) == "Desgastado" <==> iag < 5.0
    ensures IagText(iag) == "Promedio" <==> 15.0 <= iag <= 85.0
    ensures IagText(iag) == "Exceso de grasa" <==> iag > 95.0
  {
  }

  /** A larger IAG never gets a lower label. */
  lemma IagMonotone(x: real, y: real)
    requires x <= y
    ensures IagLevel(x) <= IagLevel(y)
  {
  }

  // ---------------------------------------------------------------------
  // Fat percentage by sex and age (NIH/OMS), and the general rule

  /** `pg < low` lean, `low <= pg <= normalMax` normal, `highMin <= pg <= highMax` high, else very high. */
  datatype Cuts = Cuts(low: real, normalMax: real, highMin: real, highMax: real)

  /** The cut points for the age band `20-39` (0), `40-59` (1) or `60-79` (2). */
  function NihCuts(male: bool, band: nat): Cuts
    requires band < 3
  {
    if male then
      if band == 0 then Cuts(8.0, 19.9, 20.0, 24.9)
      else if band == 1 then Cuts(11.0, 21.9, 22.0, 27.9)
      else Cuts(13.0, 24.9, 25.0, 29.9)
    else
      if band == 0 then Cuts(21.0, 32.9, 33.0, 38.9)
      else if band == 1 then Cuts(23.0, 33.9, 34.0, 39.9)
      else Cuts(24.0, 35.9, 36.0, 41.9)
  }

  /** The age band of `edad`, if it is in one. */
  function AgeBand(edad: int): (b: int)
    ensures -1 <= b < 3
    ensures b == -1 <==> edad < 20 || edad > 79
  {
    if 20 <= edad <= 39 then 0 else if 40 <= edad <= 59 then 1 else if 60 <= edad <= 79 then 2 else -1
  }

  const NihLabels: seq<string> := ["Bajo/Magro", "Normal/Saludable", "Alto/Sobrepeso", "Muy Alto/Obesidad"]
  const GeneralLabels: seq<string> := ["Bajo (atlético)", "Normal", "Alto"]

  function NihLevel(c: Cuts, pg: real): (n: nat)
    ensures n < |NihLabels|
  {
    if pg < c.low then 0
    else if c.low <= pg <= c.normalMax then 1
    else if c.highMin <= pg <= c.highMax then 2
    else 3
  }

  /** The rule for ages outside the bands: `pg <= 15` (men) or `<= 25` (women) athletic, 10 more normal, else high. */
  function GeneralLevel(male: bool, pg: real): (n: nat)
    ensures n < |GeneralLabels|
  {
    var first := if male then 15.0 else 25.0;
    if pg <= first then 0 else if pg <= first + 10.0 then 1 else 2
  }

  function GrasaText(male: bool, edad: int, pg: real): string {
    var b := AgeBand(edad);
    if b >= 0 then NihLabels[NihLevel(NihCuts(male, b), pg)] else GeneralLabels[GeneralLevel(male, pg)]
  }

  /** Cut points whose normal range ends one tenth below the high range. */
  predicate TenthApart(c: Cuts, a: int) {
    c.normalMax == a as real / 10.0 && c.highMin == (a + 1) as real / 10.0 && c.low <= c.normalMax && c.highMin <= c.highMax
  }

  /**
   * On values with one decimal — the fat percentage is rounded to one — the
   * NIH chain never labels a larger value lower. Off that grid it does: see
   * `NihGapOffGrid`.
   */
  lemma NihMonotoneOnGrid(c: Cuts, a: int, x: real, y: real)
    requires TenthApart(c, a) && OnGrid(x, 1) && OnGrid(y, 1) && x <= y
    ensures NihLevel(c, x) <= NihLevel(c, y)
  {
    OneDecimalGap(x, a);
    OneDecimalGap(y, a);
  }

  /** Each of the six age and sex bands has its normal range end one tenth below its high range. */
  lemma NihCutsTenthApart(male: bool, band: nat)
    requires band < 3
    ensures exists a :: TenthApart(NihCuts(male, band), a)
  {
    var c := NihCuts(male, band);
    var a := if male then (if band == 0 then 199 else if band == 1 then 219 else 249)
             else (if band == 0 then 329 else if band == 1 then 339 else 359);
    assert TenthApart(c, a);
  }

  /** Within an age band, a larger one-decimal fat percentage never gets a lower label. */
  lemma GrasaMonotoneOnGrid(male: bool, band: nat, x: real, y: real)
    requires band < 3 && OnGrid(x, 1) && OnGrid(y, 1) && x <= y
    ensures NihLevel(NihCuts(male, band), x) <= NihLevel(NihCuts(male, band), y)
  {
    NihCutsTenthApart(male, band);
    var a :| TenthApart(NihCuts(male, band), a);
    NihMonotoneOnGrid(NihCuts(male, band), a, x, y);
  }

  /** A value strictly between the normal and the high range falls through to "very high". */
  lemma NihGapOffGrid()
    ensures NihLevel(NihCuts(true, 0), 19.95) == 3 && NihLevel(NihCuts(true, 0), 24.0) == 2
    ensures !OnGrid(19.95, 1)
  {
    assert Scale(1) == 10.0;
    assert (19.95 * 10.0).Floor == 199;
  }

  /** The general rule never labels a larger value lower. */
  lemma GeneralMonotone(male: bool, x: real, y: real)
    requires x <= y
    ensures GeneralLevel(male, x) <= GeneralLevel(male, y)
  {
  }

  // ---------------------------------------------------------------------
  // Fat-free mass index

  /** `imlg < 17` (men) or `< 15` (women) is wasted, else normal. */
  function ImlgText(male: bool, imlg: real): (r: string)
    ensures r == "Desgastado/Bajo" <==> imlg < (if male then 17.0 else 15.0)
    ensures r == "Normal" <==> imlg >= (if male then 17.0 else 15.0)
  {
    if male then (if imlg < 17.0 then "Desgastado/Bajo" else "Normal")
    else (if imlg < 15.0 then "Desgastado/Bajo" else "Normal")
  }
}
