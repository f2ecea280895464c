/**
 * The formula registry the chat backend loads from `data_formulas.json`:
 * an ordered object from formula keys to formulas, each with its ordered
 * parameters (name and question) and its interpretation bands.
 */
module Formulas {
  import opened Options

  datatype Param = Param(nombre: string, pregunta: string)

  /** One interpretation row: `min`, `max`, `texto` and the optional `parametro` it applies to. */
  datatype Band = Band(min: real, max: real, texto: string, parametro: Option<string>)

  datatype Formula = Formula(nombre: string, parametros: seq<Param>, interpretacion: seq<Band>)

  /** The registry in the key order of the JSON object. */
  type Registry = seq<(string, Formula)>

  predicate HasKey(reg: Registry, k: string) {
    exists i :: 0 <= i < |reg| && reg[i].0 == k
  }

  /** Keys of a JSON object as Python loads it are distinct. */
  predicate DistinctKeys(reg: Registry) {
    forall i, j :: 0 <= i < j < |reg| ==> reg[i].0 != reg[j].0
  }

  /** `formulas.get(k)`. */
  function Get(reg: Registry, k: string): (r: Option<Formula>)
    ensures r.Some? <==> HasKey(reg, k)
    ensures r.Some? ==> exists i :: 0 <= i < |reg| && reg[i] == (k, r.value)
    decreases |reg|
  {
    if |reg| == 0 then None
    else if reg[0].0 == k then Some(reg[0].1)
    else
      var r := Get(reg[1..], k);
      assert HasKey(reg, k) ==> HasKey(reg[1..], k) by {
        if HasKey(reg, k) {
          var i :| 0 <= i < |reg| && reg[i].0 == k;
          assert reg[1..][i - 1].0 == k;
        }
      }
      assert r.Some? ==> HasKey(reg, k) by {
        if r.Some? {
          var i :| 0 <= i < |reg[1..]| && reg[1..][i] == (k, r.value);
          assert reg[i + 1] == (k, r.value);
        }
      }
      r
  }

  /** In a registry with distinct keys, `Get` returns the formula stored under the key. */
  lemma GetEntry(reg: Registry, i: int)
    requires DistinctKeys(reg) && 0 <= i < |reg|
    ensures Get(reg, reg[i].0) == Some(reg[i].1)
  {
    var r := Get(reg, reg[i].0);
    var j :| 0 <= j < |reg| && reg[j] == (reg[i].0, r.value);
    assert j == i;
  }

  // ---------------------------------------------------------------------
  // Inclusive band lookup: `if x >= rango["min"] and x <= rango["max"]` with an optional `parametro` filter

  predicate Selects(b: Band, filter: Option<string>, x: real) {
    (filter.None? || b.parametro == filter) && b.min <= x <= b.max
  }

  /** The text of the first band that selects `x`, or "" when none does. */
  function FirstBandText(bands: seq<Band>, filter: Option<string>, x: real): (r: string)
    ensures (forall i :: 0 <= i < |bands| ==> !Selects(bands[i], filter, x)) ==> r == ""
    ensures forall i :: (0 <= i < |bands| && Selects(bands[i], filter, x)
                         && (forall j :: 0 <= j < i ==> !Selects(bands[j], filter, x))) ==> r == bands[i].texto
    decreases |bands|
  {
    if |bands| == 0 then ""
    else if Selects(bands[0], filter, x) then bands[0].texto
    else
      var r := FirstBandText(bands[1..], filter, x);
      assert forall i :: 1 <= i < |bands| ==> bands[1..][i - 1] == bands[i];
      r
  }

  /** The band loop: `for rango in interpretacion: if (parametro matches and) min <= x <= max: texto = …; break`. */
  method Interpretar(bands: seq<Band>, filter: Option<string>, x: real) returns (texto: string)
    ensures texto == FirstBandText(bands, filter, x)
  {
    var i := 0;
    assert bands[i..] == bands;
    while i < |bands|
      invariant 0 <= i <= |bands|
      invariant FirstBandText(bands, filter, x) == FirstBandText(bands[i..], filter, x)
    {
      var rango := bands[i];
      if (filter.None? || rango.parametro == filter) && x >= rango.min && x <= rango.max {
        return rango.texto;
      }
      assert bands[i..][1..] == bands[i + 1..];
      i := i + 1;
    }
    return "";
  }
}
