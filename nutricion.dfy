/**
 * The row formatters of the backend's nutrition module. Each walks its input
 * in order and appends one output entry per input entry; the food record
 * passed as the first argument is never read.
 *
 * A dictionary is its sequence of `(key, value)` items in insertion order,
 * and `str(value)` is the parameter `str`.
 */
module Nutricion {
  import opened Options

  /** A `{"clave": key, "valor": text}` row of the basic table. */
  datatype Fila = Fila(clave: string, valor: string)

  /** A `{"linea": value}` entry of a console listing. */
  datatype Linea<V> = Linea(linea: V)

  /** One row per item, in item order. */
  function Filas<V>(info: seq<(string, V)>, str: V -> string): (r: seq<Fila>)
    ensures |r| == |info|
    ensures forall k :: 0 <= k < |info| ==> r[k].clave == info[k].0 && r[k].valor == str(info[k].1)
  {
    if |info| == 0 then [] else [Fila(info[0].0, str(info[0].1))] + Filas(info[1..], str)
  }

  /** `f"{key}: {value}"`. */
  function KeyValueLine(key: string, text: string): string {
    key + ": " + text
  }

  /** One `key: value` line per item, in item order. */
  function Lineas<V>(info: seq<(string, V)>, str: V -> string): (r: seq<Linea<string>>)
    ensures |r| == |info|
    ensures forall k :: 0 <= k < |info| ==> r[k].linea == KeyValueLine(info[k].0, str(info[k].1))
  {
    if |info| == 0 then [] else [Linea(KeyValueLine(info[0].0, str(info[0].1)))] + Lineas(info[1..], str)
  }

  const Descripcion: string := "descripcion"

  /**
   * The description of every step, in step order; `None` is the `KeyError`
   * raised by the first step without a "descripcion" entry.
   */
  function Pasos<V>(pasos: seq<map<string, V>>): (r: Option<seq<Linea<V>>>)
    ensures r.Some? <==> forall k :: 0 <= k < |pasos| ==> Descripcion in pasos[k]
    ensures r.Some? ==> |r.value| == |pasos|
    ensures r.Some? ==> forall k :: 0 <= k < |pasos| ==> r.value[k].linea == pasos[k][Descripcion]
  {
    if |pasos| == 0 then Some([])
    else if Descripcion !in pasos[0] then None
    else
      var rest := Pasos(pasos[1..]);
      if rest.None? then None else Some([Linea(pasos[0][Descripcion])] + rest.value)
  }

  /** `calcular_info_nutricional_basica(food_data, info_nutricional)`. */
  method CalcularInfoNutricionalBasica<F, V>(foodData: F, info: seq<(string, V)>, str: V -> string)
    returns (filas: seq<Fila>)
    ensures filas == Filas(info, str)
  {
    filas := [];
    var i := 0;
    while i < |info|
      invariant 0 <= i <= |info|
      invariant filas == Filas(info[..i], str)
    {
      FilasAppend(info[..i], [info[i]], str);
      assert info[..i + 1] == info[..i] + [info[i]];
      filas := filas + [Fila(info[i].0, str(info[i].1))];
      i := i + 1;
    }
    assert info[..i] == info;
  }

  /** `calcular_info_nutricional_completa(food_data, info_nutricional)`. */
  method CalcularInfoNutricionalCompleta<F, V>(foodData: F, info: seq<(string, V)>, str: V -> string)
    returns (desglosado: seq<Linea<string>>)
    ensures desglosado == Lineas(info, str)
  {
    desglosado := [];
    var i := 0;
    while i < |info|
      invariant 0 <= i <= |info|
      invariant desglosado == Lineas(info[..i], str)
    {
      LineasAppend(info[..i], [info[i]], str);
      assert info[..i + 1] == info[..i] + [info[i]];
      desglosado := desglosado + [Linea(KeyValueLine(info[i].0, str(info[i].1)))];
      i := i + 1;
    }
    assert info[..i] == info;
  }

  /** `calcular_desglose_calculos(food_data, pasos)`. */
  method CalcularDesgloseCalculos<F, V>(foodData: F, pasos: seq<map<string, V>>)
    returns (animacion: Option<seq<Linea<V>>>)
    ensures animacion == Pasos(pasos)
  {
    var lineas: seq<Linea<V>> := [];
    var i := 0;
    while i < |pasos|
      invariant 0 <= i <= |pasos|
      invariant Pasos(pasos[..i]) == Some(lineas)
    {
      PasosAppend(pasos[..i], [pasos[i]]);
      assert pasos[..i + 1] == pasos[..i] + [pasos[i]];
      if Descripcion !in pasos[i] {
        assert pasos[..i + 1] + pasos[i + 1..] == pasos;
        PasosAppend(pasos[..i + 1], pasos[i + 1..]);
        return None;
      }
      PasosSingle(pasos[i]);
      lineas := lineas + [Linea(pasos[i][Descripcion])];
      i := i + 1;
    }
    assert pasos[..i] == pasos;
    animacion := Some(lineas);
  }

  /** A single step with a description gives that one line. */
  lemma PasosSingle<V>(paso: map<string, V>)
    requires Descripcion in paso
    ensures Pasos([paso]) == Some([Linea(paso[Descripcion])])
  {
    assert [paso][1..] == [];
    assert Pasos([paso][1..]) == Some([]);
    assert [Linea(paso[Descripcion])] + [] == [Linea(paso[Descripcion])];
  }

  /** The rows of two item lists laid end to end are the rows of each. */
  lemma {:induction false} FilasAppend<V>(a: seq<(string, V)>, b: seq<(string, V)>, str: V -> string)
    ensures Filas(a + b, str) == Filas(a, str) + Filas(b, str)
  {
    if |a| > 0 {
      assert (a + b)[1..] == a[1..] + b;
      FilasAppend(a[1..], b, str);
    } else {
      assert a + b == b;
    }
  }

  /** The lines of two item lists laid end to end are the lines of each. */
  lemma {:induction false} LineasAppend<V>(a: seq<(string, V)>, b: seq<(string, V)>, str: V -> string)
    ensures Lineas(a + b, str) == Lineas(a, str) + Lineas(b, str)
  {
    if |a| > 0 {
      assert (a + b)[1..] == a[1..] + b;
      LineasAppend(a[1..], b, str);
    } else {
      assert a + b == b;
    }
  }

  /**
   * The steps of two step lists laid end to end give the lines of each, and
   * fail exactly when one of them fails.
   */
  lemma {:induction false} PasosAppend<V>(a: seq<map<string, V>>, b: seq<map<string, V>>)
    ensures Pasos(a + b).Some? <==> Pasos(a).Some? && Pasos(b).Some?
    ensures Pasos(a + b).Some? ==> Pasos(a + b).value == Pasos(a).value + Pasos(b).value
  {
    if |a| > 0 {
      assert (a + b)[0] == a[0];
      assert (a + b)[1..] == a[1..] + b;
      PasosAppend(a[1..], b);
    } else {
      assert a + b == b;
    }
  }

  /** The basic rows and the console lines carry the same keys and texts. */
  lemma RowsMatchLines<V>(info: seq<(string, V)>, str: V -> string)
    ensures forall k :: 0 <= k < |info| ==>
      Lineas(info, str)[k].linea == KeyValueLine(Filas(info, str)[k].clave, Filas(info, str)[k].valor)
  {
  }
}
