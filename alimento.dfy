/**
 * The `/alimento` handler of the engine's backend (`buscar_alimento`): the
 * length guard on the name, the validation call, the 404 on an empty lookup,
 * the relevant fields chosen by food group, the `info_basica` table built
 * field by field, at most two variants from the next result rows, and the
 * message that says whether the match was exact.
 *
 * The database lookup is the pair `(cols, rows)` handed in; a row is a
 * sequence of cells read as `dict(zip(cols, row))`. How a float prints is the
 * parameter `floatStr`.
 */
module Alimento {
  import opened Options
  import opened Text
  import Validators
  import Nutricion

  /** A database cell. */
  datatype Cell = CText(s: string) | CInt(i: int) | CReal(x: real) | CNull

  function DigitChar(d: nat): char
    requires d < 10
  {
    "0123456789"[d]
  }

  function NatStr(n: nat): string
    decreases n
  {
    if n < 10 then [DigitChar(n)] else NatStr(n / 10) + [DigitChar(n % 10)]
  }

  /** `str(c)` / `f"{c}"`. */
  function Show(c: Cell, floatStr: real -> string): string {
    match c
    case CText(s) => s
    case CInt(i) => if i < 0 then "-" + NatStr(-i) else NatStr(i)
    case CReal(x) => floatStr(x)
    case CNull => "None"
  }

  /** `Show` as a function value, for the formatter that stringifies the table. */
  function Shower(floatStr: real -> string): Cell -> string {
    c => Show(c, floatStr)
  }

  /** Python truthiness of a cell. */
  predicate Truthy(c: Cell) {
    match c
    case CText(s) => s != ""
    case CInt(i) => i != 0
    case CReal(x) => x != 0.0
    case CNull => false
  }

  // ---------------------------------------------------------------- the row dictionary

  /**
   * `dict(zip(cols, row)).get(key)` over the first `n` pairs: `zip` stops at
   * the shorter sequence and a repeated column keeps its last cell.
   */
  function GetUpTo(cols: seq<string>, row: seq<Cell>, key: string, n: nat): (r: Option<Cell>)
    requires n <= |cols| && n <= |row|
    ensures r.Some? <==> exists k :: 0 <= k < n && cols[k] == key
    ensures r.Some? ==> exists k :: 0 <= k < n && cols[k] == key && row[k] == r.value &&
                                    (forall j :: k < j < n ==> cols[j] != key)
  {
    if n == 0 then None
    else if cols[n - 1] == key then Some(row[n - 1])
    else GetUpTo(cols, row, key, n - 1)
  }

  function Min(a: nat, b: nat): nat {
    if a <= b then a else b
  }

  /** `dict(zip(cols, row)).get(key)`. */
  function Get(cols: seq<string>, row: seq<Cell>, key: string): Option<Cell> {
    GetUpTo(cols, row, key, Min(|cols|, |row|))
  }

  /** `dict(zip(cols, row)).get(key, default)`. */
  function GetOr(cols: seq<string>, row: seq<Cell>, key: string, default: Cell): Cell {
    var v := Get(cols, row, key);
    if v.Some? then v.value else default
  }

  // ---------------------------------------------------------------- relevant fields

  const Cantidad: string := "cantidad"
  const Energia: string := "energia (kcal)"
  const Fibra: string := "fibra (g)"
  const VitaminaC: string := "vitamina c (mg)"
  const Hidratos: string := "hidratos de carbono (g)"
  const Proteina: string := "proteina (g)"
  const Lipidos: string := "lipidos (g)"
  const Calcio: string := "calcio (mg)"

  /** `campos_por_categoria`, in its source order. */
  const Categorias: seq<(string, seq<string>)> := [
    ("verduras", [Cantidad, Energia, Fibra]),
    ("hortalizas", [Cantidad, Energia, Fibra]),
    ("frutas", [Cantidad, Energia, Fibra, VitaminaC]),
    ("cereales", [Cantidad, Energia, Hidratos, Fibra]),
    ("legumbres", [Cantidad, Energia, Proteina, Hidratos]),
    ("frutos secos", [Cantidad, Energia, Lipidos, Proteina]),
    ("carnes", [Cantidad, Energia, Proteina, Lipidos]),
    ("pescados", [Cantidad, Energia, Proteina, Lipidos]),
    ("lacteos", [Cantidad, Energia, Proteina, Calcio]),
    ("huevos", [Cantidad, Energia, Proteina, Lipidos]),
    ("aceites", [Cantidad, Energia, Lipidos]),
    ("bebidas", [Cantidad, Energia, Hidratos]),
    ("azucares", [Cantidad, Energia, Hidratos]),
    ("miscelaneos", [Cantidad, Energia, Proteina, Hidratos, Lipidos])
  ]

  /** `campos_default`. */
  const CamposDefault: seq<string> := [Cantidad, Energia, Proteina, Hidratos, Lipidos, Fibra]

  /** `table.get(key, default)` on a table given as its items. */
  function TableGet(table: seq<(string, seq<string>)>, key: string, default: seq<string>): (r: seq<string>)
    ensures (forall k :: 0 <= k < |table| ==> table[k].0 != key) ==> r == default
    ensures forall k :: (0 <= k < |table| && table[k].0 == key &&
                         (forall j :: 0 <= j < k ==> table[j].0 != key)) ==> r == table[k].1
  {
    if |table| == 0 then default
    else if table[0].0 == key then table[0].1
    else TableGet(table[1..], key, default)
  }

  /** `campos_por_categoria.get(grupo, campos_default)`. */
  function CamposRelevantes(grupo: string): (r: seq<string>)
    ensures (forall k :: 0 <= k < |Categorias| ==> Categorias[k].0 != grupo) ==> r == CamposDefault
  {
    TableGet(Categorias, grupo, CamposDefault)
  }

  /** Every field list of the table, and the default one, starts with the quantity. */
  lemma CantidadFirst(grupo: string)
    ensures |CamposRelevantes(grupo)| > 0 && CamposRelevantes(grupo)[0] == Cantidad
  {
    TableFirst(Categorias, grupo, CamposDefault);
  }

  lemma {:induction false} TableFirst(table: seq<(string, seq<string>)>, key: string, default: seq<string>)
    requires |default| > 0 && default[0] == Cantidad
    requires forall k :: 0 <= k < |table| ==> |table[k].1| > 0 && table[k].1[0] == Cantidad
    ensures |TableGet(table, key, default)| > 0 && TableGet(table, key, default)[0] == Cantidad
  {
    if |table| > 0 && table[0].0 != key {
      TableFirst(table[1..], key, default);
    }
  }

  // ---------------------------------------------------------------- formatting a field

  predicate IsAsciiLetter(c: char) {
    'a' <= c <= 'z' || 'A' <= c <= 'Z'
  }

  /** `str.title()` from a position whose previous character was (not) a letter. */
  function TitleFrom(s: string, afterLetter: bool): (r: string)
    ensures |r| == |s|
  {
    if |s| == 0 then ""
    else
      var c := s[0];
      var d := if !IsAsciiLetter(c) then c else if afterLetter then LowerChar(c) else UpperChar(c);
      [d] + TitleFrom(s[1..], IsAsciiLetter(c))
  }

  /** `campo.title()`. */
  function Title(s: string): string {
    TitleFrom(s, false)
  }

  /** `s.rstrip(")")`. */
  function RStripParen(s: string): (r: string)
    ensures |r| <= |s|
    decreases |s|
  {
    if |s| > 0 && s[|s| - 1] == ')' then RStripParen(s[..|s| - 1]) else s
  }

  /** `campo.split('(')[-1].rstrip(')') if '(' in campo else ''`. */
  function Unidad(campo: string): string {
    if Contains(campo, "(") then RStripParen(Last(Split(campo, '('))) else ""
  }

  const PorcionBase: string := "Porción base"

  /** A number other than zero: the values that are printed with their unit. */
  predicate NonZeroNumber(c: Cell) {
    (c.CInt? && c.i != 0) || (c.CReal? && c.x != 0.0)
  }

  /** The `(key, text)` that a present field `campo` with value `v` writes into `info_basica`. */
  function FieldEntry(cols: seq<string>, row: seq<Cell>, campo: string, v: Cell, floatStr: real -> string)
    : (r: (string, string))
    ensures r.0 == Title(campo) || (r.0 == PorcionBase && campo == Cantidad && NonZeroNumber(v))
    ensures NonZeroNumber(v) ==> StartsWith(r.1, Show(v, floatStr) + " ")
  {
    if NonZeroNumber(v) then
      var head := Show(v, floatStr) + " ";
      var unit := if campo == Cantidad then Show(GetOr(cols, row, "unidad", CText("g")), floatStr) else Unidad(campo);
      assert (head + unit)[..|head|] == head;
      if campo == Cantidad then (PorcionBase, head + unit)
      else (Title(campo), head + unit)
    else (Title(campo), if Truthy(v) then Show(v, floatStr) else "0")
  }

  /** The entry goes under "Porción base" exactly for a non-zero quantity. */
  lemma PorcionBaseIff(cols: seq<string>, row: seq<Cell>, campo: string, v: Cell, floatStr: real -> string)
    requires campo != PorcionBase && Title(campo) != PorcionBase
    ensures FieldEntry(cols, row, campo, v, floatStr).0 == PorcionBase <==> campo == Cantidad && NonZeroNumber(v)
  {
  }

  /** A zero, an empty text or a NULL reads "0"; any other value that is not a number is printed as is. */
  lemma FieldTextNotNumber(cols: seq<string>, row: seq<Cell>, campo: string, v: Cell, floatStr: real -> string)
    requires !NonZeroNumber(v)
    ensures FieldEntry(cols, row, campo, v, floatStr) ==
      (Title(campo), if v.CText? && v.s != "" then v.s else "0")
  {
  }

  // ---------------------------------------------------------------- the ordered dictionary

  /** The items of a dictionary: no key twice. */
  predicate DistinctKeys(d: seq<(string, Cell)>) {
    forall i, j :: 0 <= i < j < |d| ==> d[i].0 != d[j].0
  }

  /** `d[k] = v` on an insertion-ordered dictionary: an existing key keeps its place. */
  function Put(d: seq<(string, Cell)>, k: string, v: Cell): (r: seq<(string, Cell)>)
    requires DistinctKeys(d)
    ensures DistinctKeys(r)
    ensures forall i :: 0 <= i < |d| ==> i < |r| && r[i].0 == d[i].0
    ensures forall i :: 0 <= i < |d| && d[i].0 != k ==> r[i] == d[i]
    ensures forall i :: 0 <= i < |d| && d[i].0 == k ==> r[i].1 == v
    ensures (exists i :: 0 <= i < |d| && d[i].0 == k) ==> |r| == |d|
    ensures (forall i :: 0 <= i < |d| ==> d[i].0 != k) ==> r == d + [(k, v)]
  {
    if |d| == 0 then [(k, v)]
    else if d[0].0 == k then [(k, v)] + d[1..]
    else [d[0]] + Put(d[1..], k, v)
  }

  /** One step of the field loop: a present field writes its entry, a missing one nothing. */
  function AddField(info: seq<(string, Cell)>, cols: seq<string>, row: seq<Cell>, campo: string,
                    floatStr: real -> string): (r: seq<(string, Cell)>)
    requires DistinctKeys(info)
    ensures DistinctKeys(r)
  {
    var v := Get(cols, row, campo);
    if v.None? then info
    else
      var e := FieldEntry(cols, row, campo, v.value, floatStr);
      Put(info, e.0, CText(e.1))
  }

  /** The field loop over `campos`, starting from `info`. */
  function AddFields(info: seq<(string, Cell)>, cols: seq<string>, row: seq<Cell>, campos: seq<string>,
                     floatStr: real -> string): (r: seq<(string, Cell)>)
    requires DistinctKeys(info)
    ensures DistinctKeys(r)
    decreases |campos|
  {
    if |campos| == 0 then info
    else AddFields(AddField(info, cols, row, campos[0], floatStr), cols, row, campos[1..], floatStr)
  }

  /** `info_basica` before the field loop. */
  function BaseInfo(cols: seq<string>, row: seq<Cell>): seq<(string, Cell)> {
    [("Alimento", GetOr(cols, row, "alimento", CText("N/A"))),
     ("Grupo", GetOr(cols, row, "grupo de alimentos", CText("N/A")))]
  }

  /** The field loop of `buscar_alimento`. */
  method BuildInfo(cols: seq<string>, row: seq<Cell>, campos: seq<string>, floatStr: real -> string)
    returns (info: seq<(string, Cell)>)
    ensures info == AddFields(BaseInfo(cols, row), cols, row, campos, floatStr)
  {
    info := BaseInfo(cols, row);
    for i := 0 to |campos|
      invariant DistinctKeys(info)
      invariant AddFields(info, cols, row, campos[i..], floatStr) ==
        AddFields(BaseInfo(cols, row), cols, row, campos, floatStr)
    {
      assert campos[i..][1..] == campos[i + 1..];
      var v := Get(cols, row, campos[i]);
      if v.Some? {
        var e := FieldEntry(cols, row, campos[i], v.value, floatStr);
        info := Put(info, e.0, CText(e.1));
      }
    }
  }

  /**
   * The field loop never moves or drops an entry and adds at most one per
   * field, so "Alimento" and "Grupo" stay the first two keys.
   */
  lemma {:induction false} AddFieldsKeeps(info: seq<(string, Cell)>, cols: seq<string>, row: seq<Cell>,
                                          campos: seq<string>, floatStr: real -> string)
    requires DistinctKeys(info)
    ensures |info| <= |AddFields(info, cols, row, campos, floatStr)| <= |info| + |campos|
    ensures forall i :: 0 <= i < |info| ==> AddFields(info, cols, row, campos, floatStr)[i].0 == info[i].0
    decreases |campos|
  {
    if |campos| > 0 {
      var next := AddField(info, cols, row, campos[0], floatStr);
      AddFieldsKeeps(next, cols, row, campos[1..], floatStr);
    }
  }

  /** A field missing from the row adds nothing. */
  lemma MissingFieldSkipped(info: seq<(string, Cell)>, cols: seq<string>, row: seq<Cell>, campo: string,
                            floatStr: real -> string)
    requires DistinctKeys(info)
    requires forall k :: 0 <= k < Min(|cols|, |row|) ==> cols[k] != campo
    ensures AddField(info, cols, row, campo, floatStr) == info
  {
  }

  /** A present field under a new key appends its entry with the formatted text. */
  lemma PresentFieldAppended(info: seq<(string, Cell)>, cols: seq<string>, row: seq<Cell>, campo: string,
                             floatStr: real -> string, v: Cell)
    requires DistinctKeys(info)
    requires Get(cols, row, campo) == Some(v)
    requires forall i :: 0 <= i < |info| ==> info[i].0 != FieldEntry(cols, row, campo, v, floatStr).0
    ensures AddField(info, cols, row, campo, floatStr) ==
      info + [(FieldEntry(cols, row, campo, v, floatStr).0, CText(FieldEntry(cols, row, campo, v, floatStr).1))]
  {
  }

  /** `info_basica` opens with the food name and the group. */
  lemma InfoOpens(cols: seq<string>, row: seq<Cell>, grupo: string, floatStr: real -> string)
    ensures var info := AddFields(BaseInfo(cols, row), cols, row, CamposRelevantes(grupo), floatStr);
      |info| >= 2 && info[0].0 == "Alimento" && info[1].0 == "Grupo" &&
      |info| <= 2 + |CamposRelevantes(grupo)|
  {
    AddFieldsKeeps(BaseInfo(cols, row), cols, row, CamposRelevantes(grupo), floatStr);
  }

  // ---------------------------------------------------------------- variants

  /** An entry of `sugerencias`. */
  datatype Variante = Variante(alimento: Cell, cantidad: string, energia: string)

  /** The variant built from one further result row. */
  function VarianteOf(cols: seq<string>, row: seq<Cell>, floatStr: real -> string): Variante {
    Variante(
      GetOr(cols, row, "alimento", CText("")),
      Show(GetOr(cols, row, Cantidad, CInt(0)), floatStr) + " " + Show(GetOr(cols, row, "unidad", CText("g")), floatStr),
      Show(GetOr(cols, row, Energia, CInt(0)), floatStr) + " kcal")
  }

  /** `rows[1:3]`. */
  function Siguientes(rows: seq<seq<Cell>>): (r: seq<seq<Cell>>)
    ensures |rows| <= 1 ==> r == []
    ensures |rows| >= 1 ==> |r| == Min(2, |rows| - 1)
    ensures forall k :: 0 <= k < |r| ==> r[k] == rows[k + 1]
  {
    if |rows| <= 1 then [] else rows[1..Min(3, |rows|)]
  }

  /** The variants of `rs`, one per row, in row order. */
  function Variantes(cols: seq<string>, rs: seq<seq<Cell>>, floatStr: real -> string): (r: seq<Variante>)
    ensures |r| == |rs|
    ensures forall k :: 0 <= k < |rs| ==> r[k] == VarianteOf(cols, rs[k], floatStr)
  {
    if |rs| == 0 then [] else [VarianteOf(cols, rs[0], floatStr)] + Variantes(cols, rs[1..], floatStr)
  }

  /** The variant loop of `buscar_alimento`. */
  method BuildVariantes(cols: seq<string>, rows: seq<seq<Cell>>, floatStr: real -> string)
    returns (vs: seq<Variante>)
    ensures vs == Variantes(cols, Siguientes(rows), floatStr)
  {
    vs := [];
    if |rows| > 1 {
      var next := rows[1..Min(3, |rows|)];
      for i := 0 to |next|
        invariant vs == Variantes(cols, next[..i], floatStr)
      {
        assert next[..i + 1] == next[..i] + [next[i]];
        VariantesSnoc(cols, next[..i], next[i], floatStr);
        vs := vs + [VarianteOf(cols, next[i], floatStr)];
      }
      assert next[..|next|] == next;
    }
  }

  /** One more row adds its variant at the end. */
  lemma VariantesSnoc(cols: seq<string>, rs: seq<seq<Cell>>, row: seq<Cell>, floatStr: real -> string)
    ensures Variantes(cols, rs + [row], floatStr) == Variantes(cols, rs, floatStr) + [VarianteOf(cols, row, floatStr)]
  {
    var l := Variantes(cols, rs + [row], floatStr);
    var r := Variantes(cols, rs, floatStr) + [VarianteOf(cols, row, floatStr)];
    assert |l| == |r|;
    forall k | 0 <= k < |l| ensures l[k] == r[k] {
      if k < |rs| {
        assert (rs + [row])[k] == rs[k];
      }
    }
  }

  /** At most two variants, from result rows two and three. */
  lemma VariantesBound(cols: seq<string>, rows: seq<seq<Cell>>, floatStr: real -> string)
    requires |rows| > 0
    ensures |Variantes(cols, Siguientes(rows), floatStr)| == Min(2, |rows| - 1)
    ensures forall k :: 0 <= k < Min(2, |rows| - 1) ==>
      Variantes(cols, Siguientes(rows), floatStr)[k] == VarianteOf(cols, rows[k + 1], floatStr)
  {
  }

  // ---------------------------------------------------------------- the response

  function MsgExacta(nombre: string): string {
    "Se encontró una coincidencia exacta para '" + nombre + "'."
  }

  function MsgSimilar(nombre: string): string {
    "No se encontró una coincidencia exacta para '" + nombre +
    "'. Mostrando la opción más similar y algunas variantes."
  }

  /** The two messages differ. */
  lemma ExactaNotSimilar(nombre: string)
    ensures MsgExacta(nombre) != MsgSimilar(nombre)
  {
    assert MsgExacta(nombre)[|MsgExacta(nombre)| - 1] == '.';
    assert |MsgExacta(nombre)| < |MsgSimilar(nombre)|;
  }

  /** `mensaje`: exact exactly when there are no variants. */
  function Mensaje(nombre: string, variantes: seq<Variante>): string {
    if |variantes| == 0 then MsgExacta(nombre) else MsgSimilar(nombre)
  }

  const MsgNombreCorto: string := "Nombre de alimento requerido (mínimo 2 caracteres)"

  const MsgInterno: string := "Error interno del servidor: "

  function MsgNoEncontrado(nombre: string): string {
    "No se encontraron alimentos que coincidan con '" + nombre + "'"
  }

  /** The text of the `TypeError` raised by indexing the returned tuple with "valid". */
  const TupleIndexError: string := "tuple indices must be integers or slices, not str"

  /** The text of the `TypeError` raised by indexing a string with a string. */
  const StrIndexError: string := "string indices must be integers, not 'str'"

  /** The handler's answer: a JSON body or an error status with its message. */
  datatype Respuesta =
    | Ok(filas: seq<Nutricion.Fila>, mensaje: string, sugerencias: seq<Variante>)
    | Fail(status: int, error: string)

  /** `not nombre or len(nombre.strip()) < 2`. */
  predicate NombreCorto(nombre: string) {
    |PyStrip(nombre)| < 2
  }

  /** The Python type name of a cell, as in an `AttributeError` message. */
  function TypeName(c: Cell): string {
    match c
    case CText(_) => "str"
    case CInt(_) => "int"
    case CReal(_) => "float"
    case CNull => "NoneType"
  }

  /** The lower-cased group, or the message of the `AttributeError` raised by `.lower()`. */
  datatype Lowered = Lowered(value: string) | AttributeError(error: string)

  /** `alimento_dict.get('grupo de alimentos', '').lower()`; a group that is not text raises. */
  function Grupo(cols: seq<string>, row: seq<Cell>): (r: Lowered)
    ensures r.Lowered? <==> GetOr(cols, row, "grupo de alimentos", CText("")).CText?
  {
    var g := GetOr(cols, row, "grupo de alimentos", CText(""));
    if g.CText? then Lowered(Lower(g.s))
    else AttributeError("'" + TypeName(g) + "' object has no attribute 'lower'")
  }

  /** The answer after the lookup, once the name has been accepted. */
  function Answer(nombre: string, cols: seq<string>, rows: seq<seq<Cell>>, floatStr: real -> string): (r: Respuesta)
    ensures r.Fail? ==> r.status == 404 || r.status == 500
    ensures r.Fail? && r.status == 404 <==> |cols| == 0 || |rows| == 0
    ensures r.Ok? ==> |r.sugerencias| == Min(2, |rows| - 1)
    ensures r.Ok? ==> (r.mensaje == MsgExacta(nombre) <==> |r.sugerencias| == 0)
  {
    ExactaNotSimilar(nombre);
    if |cols| == 0 || |rows| == 0 then Fail(404, MsgNoEncontrado(nombre))
    else
      var grupo := Grupo(cols, rows[0]);
      if grupo.AttributeError? then Fail(500, MsgInterno + grupo.error)
      else
        var info := AddFields(BaseInfo(cols, rows[0]), cols, rows[0], CamposRelevantes(grupo.value), floatStr);
        var variantes := Variantes(cols, Siguientes(rows), floatStr);
        Ok(Nutricion.Filas(info, Shower(floatStr)), Mensaje(nombre, variantes), variantes)
  }

  /**
   * `buscar_alimento(nombre)` as written: the query string is handed to
   * `validate_food_input`, which either raises on `nombre["nombre"]` or
   * returns a tuple that `validation["valid"]` then indexes with a string;
   * either way the handler's `except` answers 500.
   */
  function BuscarAlimentoAsWritten(nombre: string, cols: seq<string>, rows: seq<seq<Cell>>,
                                   floatStr: real -> string): (r: Respuesta)
    ensures r.Fail?
    ensures r.status == 400 <==> NombreCorto(nombre)
    ensures r.status != 400 ==> r.status == 500 && StartsWith(r.error, MsgInterno)
  {
    if NombreCorto(nombre) then Fail(400, MsgNombreCorto)
    else
      match Validators.ValidateString(nombre)
      case RaisedTypeError => Fail(500, MsgInterno + StrIndexError)
      case Returned(_) => Fail(500, MsgInterno + TupleIndexError)
  }

  /** Every accepted name ends in the `except` branch; the lookup is never reached. */
  lemma AsWrittenAlwaysFails(nombre: string, cols: seq<string>, rows: seq<seq<Cell>>, floatStr: real -> string)
    requires !NombreCorto(nombre)
    ensures BuscarAlimentoAsWritten(nombre, cols, rows, floatStr).Fail?
    ensures BuscarAlimentoAsWritten(nombre, cols, rows, floatStr).status == 500
    ensures StartsWith(BuscarAlimentoAsWritten(nombre, cols, rows, floatStr).error, MsgInterno)
  {
  }

  /**
   * `buscar_alimento(nombre)` with the validation step doing what it evidently
   * means to: a name that passes the length guard goes on to the lookup.
   */
  function BuscarAlimentoFixed(nombre: string, cols: seq<string>, rows: seq<seq<Cell>>,
                               floatStr: real -> string): (r: Respuesta)
    ensures r.Fail? && r.status == 400 <==> NombreCorto(nombre)
    ensures r.Ok? ==> |cols| > 0 && |rows| > 0
  {
    if NombreCorto(nombre) then Fail(400, MsgNombreCorto) else Answer(nombre, cols, rows, floatStr)
  }

  /** A found food where the as-written handler answers 500 and the corrected one answers with the table. */
  lemma AsWrittenDiffers()
    ensures BuscarAlimentoAsWritten("arroz", ["alimento"], [[CText("arroz")]], x => "").status == 500
    ensures BuscarAlimentoFixed("arroz", ["alimento"], [[CText("arroz")]], x => "").Ok?
  {
    var s := "arroz";
    assert PyStrip(s) == s by { TrimEnds(s, IsPySpace); }
  }

  /** The handler with the loops of the source, answering as `BuscarAlimentoFixed`. */
  method BuscarAlimento(nombre: string, cols: seq<string>, rows: seq<seq<Cell>>, floatStr: real -> string)
    returns (r: Respuesta)
    ensures r == BuscarAlimentoFixed(nombre, cols, rows, floatStr)
  {
    if NombreCorto(nombre) {
      return Fail(400, MsgNombreCorto);
    }
    if |cols| == 0 || |rows| == 0 {
      return Fail(404, MsgNoEncontrado(nombre));
    }
    var grupo := Grupo(cols, rows[0]);
    if grupo.AttributeError? {
      return Fail(500, MsgInterno + grupo.error);
    }
    var campos := CamposRelevantes(grupo.value);
    var info := BuildInfo(cols, rows[0], campos, floatStr);
    var filas := Nutricion.CalcularInfoNutricionalBasica(rows[0], info, Shower(floatStr));
    var variantes := BuildVariantes(cols, rows, floatStr);
    r := Ok(filas, Mensaje(nombre, variantes), variantes);
  }

  /** A name shorter than two characters after stripping is refused before any lookup. */
  lemma ShortNameRefused(nombre: string, cols: seq<string>, rows: seq<seq<Cell>>, floatStr: real -> string)
    requires NombreCorto(nombre)
    ensures BuscarAlimentoFixed(nombre, cols, rows, floatStr) == Fail(400, MsgNombreCorto)
    ensures BuscarAlimentoAsWritten(nombre, cols, rows, floatStr) == Fail(400, MsgNombreCorto)
  {
  }

  /** An empty lookup answers 404 naming the query. */
  lemma NotFound(nombre: string, cols: seq<string>, rows: seq<seq<Cell>>, floatStr: real -> string)
    requires !NombreCorto(nombre) && (|cols| == 0 || |rows| == 0)
    ensures BuscarAlimentoFixed(nombre, cols, rows, floatStr) == Fail(404, MsgNoEncontrado(nombre))
  {
  }

  /**
   * A found food answers with one table row per `info_basica` entry, at most
   * two variants from the next rows, and the exact-match message exactly when
   * the lookup gave a single row.
   */
  lemma FoundAnswer(nombre: string, cols: seq<string>, rows: seq<seq<Cell>>, floatStr: real -> string)
    requires !NombreCorto(nombre) && |cols| > 0 && |rows| > 0
    requires GetOr(cols, rows[0], "grupo de alimentos", CText("")).CText?
    ensures var r := BuscarAlimentoFixed(nombre, cols, rows, floatStr);
      r.Ok? &&
      |r.sugerencias| == Min(2, |rows| - 1) &&
      (r.mensaje == MsgExacta(nombre) <==> |rows| == 1) &&
      (r.mensaje == MsgSimilar(nombre) <==> |rows| > 1) &&
      |r.filas| >= 2 && r.filas[0].clave == "Alimento" && r.filas[1].clave == "Grupo"
  {
    var grupo := Lower(GetOr(cols, rows[0], "grupo de alimentos", CText("")).s);
    InfoOpens(cols, rows[0], grupo, floatStr);
    ExactaNotSimilar(nombre);
  }

  /** A group that is not text makes the handler answer 500. */
  lemma GroupNotText(nombre: string, cols: seq<string>, rows: seq<seq<Cell>>, floatStr: real -> string)
    requires !NombreCorto(nombre) && |cols| > 0 && |rows| > 0
    requires !GetOr(cols, rows[0], "grupo de alimentos", CText("")).CText?
    ensures BuscarAlimentoFixed(nombre, cols, rows, floatStr).Fail?
    ensures BuscarAlimentoFixed(nombre, cols, rows, floatStr).status == 500
  {
  }
}
