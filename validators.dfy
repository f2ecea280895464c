/**
 * `validate_food_input` of the engine's backend utilities: the required
 * fields nombre, cantidad and unidad are checked in that order, each for
 * presence and then for a truthy value, and cantidad must then convert to a
 * float greater than zero.
 *
 * The check is written for a dictionary, but `buscar_alimento` hands it the
 * query string, where `in` is a substring test and indexing by a field name
 * raises `TypeError`; both readings are modelled.
 */
module Validators {
  import opened Options
  import opened Text

  /** The Python values a food record can hold. */
  datatype PyValue = PyStr(s: string) | PyInt(i: int) | PyFloat(x: real) | PyBool(b: bool) | PyNone

  /** Python truthiness. */
  predicate Truthy(v: PyValue) {
    match v
    case PyStr(s) => s != ""
    case PyInt(i) => i != 0
    case PyFloat(x) => x != 0.0
    case PyBool(b) => b
    case PyNone => false
  }

  /**
   * `float(v)`; `None` stands for the `ValueError` of an unparsable string.
   * Parsing a string is the parameter `parse`; `float(None)` raises
   * `TypeError`, which cannot arise here because `None` is falsy and is
   * rejected before the conversion.
   */
  function ToFloat(v: PyValue, parse: string -> Option<real>): (r: Option<real>)
    requires Truthy(v)
    ensures v.PyInt? ==> r == Some(v.i as real)
    ensures v.PyFloat? ==> r == Some(v.x)
    ensures v.PyBool? ==> r == Some(1.0)
  {
    match v
    case PyStr(s) => parse(s)
    case PyInt(i) => Some(i as real)
    case PyFloat(x) => Some(x)
    case PyBool(_) => Some(1.0)
  }

  const NombreField: string := "nombre"

  const CantidadField: string := "cantidad"

  const UnidadField: string := "unidad"

  /** The required fields, in the order they are checked. */
  const Required: seq<string> := [NombreField, CantidadField, UnidadField]

  const MsgNotNumber: string := "La cantidad debe ser un número."

  const MsgNotPositive: string := "La cantidad debe ser mayor a cero."

  function MsgMissing(field: string): string {
    "Falta el campo requerido: " + field
  }

  function MsgEmpty(field: string): string {
    "El campo '" + field + "' no puede estar vacío."
  }

  /** The `(valid, message)` pair the check returns. */
  datatype Validation = Validation(valid: bool, message: string)

  /** The field loop from position `i` on; `None` when every remaining field passes. */
  function FieldCheck(data: map<string, PyValue>, fields: seq<string>, i: nat): (r: Option<Validation>)
    requires i <= |fields|
    ensures r.Some? ==> !r.value.valid
    decreases |fields| - i
  {
    if i == |fields| then None
    else if fields[i] !in data then Some(Validation(false, MsgMissing(fields[i])))
    else if !Truthy(data[fields[i]]) then Some(Validation(false, MsgEmpty(fields[i])))
    else FieldCheck(data, fields, i + 1)
  }

  /** `validate_food_input(food_data)` on a dictionary. */
  function ValidateFoodInput(data: map<string, PyValue>, parse: string -> Option<real>): (r: Validation)
    ensures r.valid ==> r.message == ""
  {
    var fields := FieldCheck(data, Required, 0);
    if fields.Some? then fields.value
    else
      assert CantidadField in data && Truthy(data[CantidadField]) by { FieldCheckPasses(data, Required, 0, 1); }
      var cantidad := ToFloat(data[CantidadField], parse);
      if cantidad.None? then Validation(false, MsgNotNumber)
      else if cantidad.value <= 0.0 then Validation(false, MsgNotPositive)
      else Validation(true, "")
  }

  /** Every field from `i` on that the loop lets through is present and truthy. */
  lemma {:induction false} FieldCheckPasses(data: map<string, PyValue>, fields: seq<string>, i: nat, k: nat)
    requires i <= k < |fields| && FieldCheck(data, fields, i).None?
    ensures fields[k] in data && Truthy(data[fields[k]])
    decreases k - i
  {
    if i < k {
      FieldCheckPasses(data, fields, i + 1, k);
    }
  }

  /** A field that is present with a truthy value. */
  predicate FieldOk(data: map<string, PyValue>, field: string) {
    field in data && Truthy(data[field])
  }

  /**
   * The loop stops at the first field that is absent or falsy and reports that
   * field with the message of its failure; it passes iff every field is present
   * and truthy.
   */
  lemma {:induction false} FieldCheckFirst(data: map<string, PyValue>, fields: seq<string>, i: nat)
    requires i <= |fields|
    ensures FieldCheck(data, fields, i).None? <==> forall k :: i <= k < |fields| ==> FieldOk(data, fields[k])
    ensures FieldCheck(data, fields, i).Some? ==>
      exists k :: i <= k < |fields| && !FieldOk(data, fields[k]) &&
        (forall j :: i <= j < k ==> FieldOk(data, fields[j])) &&
        FieldCheck(data, fields, i).value.message ==
          (if fields[k] !in data then MsgMissing(fields[k]) else MsgEmpty(fields[k]))
    decreases |fields| - i
  {
    if i < |fields| {
      FieldCheckFirst(data, fields, i + 1);
      if !FieldOk(data, fields[i]) {
        assert i <= i < |fields| && !FieldOk(data, fields[i]);
      } else if FieldCheck(data, fields, i).Some? {
        var k :| i + 1 <= k < |fields| && !FieldOk(data, fields[k]) &&
          (forall j :: i + 1 <= j < k ==> FieldOk(data, fields[j])) &&
          FieldCheck(data, fields, i + 1).value.message ==
            (if fields[k] !in data then MsgMissing(fields[k]) else MsgEmpty(fields[k]));
        assert forall j :: i <= j < k ==> FieldOk(data, fields[j]);
      }
    }
  }

  /** A record with every field present and truthy, passing the quantity checks. */
  predicate WellFormed(data: map<string, PyValue>, parse: string -> Option<real>) {
    (forall k :: 0 <= k < |Required| ==> FieldOk(data, Required[k])) &&
    assert FieldOk(data, Required[1]);
    var c := ToFloat(data[CantidadField], parse);
    c.Some? && c.value > 0.0
  }

  /** `(True, "")` comes back exactly when every check passes. */
  lemma ValidIff(data: map<string, PyValue>, parse: string -> Option<real>)
    ensures ValidateFoodInput(data, parse).valid <==> WellFormed(data, parse)
    ensures ValidateFoodInput(data, parse) == Validation(true, "") <==> WellFormed(data, parse)
  {
    FieldCheckFirst(data, Required, 0);
  }

  /** An absent nombre is reported first, whatever else is wrong. */
  lemma NombreFirst(data: map<string, PyValue>, parse: string -> Option<real>)
    requires NombreField !in data
    ensures ValidateFoodInput(data, parse) == Validation(false, MsgMissing(NombreField))
  {
  }

  /**
   * With the fields in place, the quantity is reported as not a number when it
   * does not convert and as not positive when it converts to zero or less.
   */
  lemma CantidadChecks(data: map<string, PyValue>, parse: string -> Option<real>)
    requires forall k :: 0 <= k < |Required| ==> FieldOk(data, Required[k])
    requires FieldOk(data, CantidadField)
    ensures ToFloat(data[CantidadField], parse).None? ==>
      ValidateFoodInput(data, parse) == Validation(false, MsgNotNumber)
    ensures ToFloat(data[CantidadField], parse).Some? && ToFloat(data[CantidadField], parse).value <= 0.0 ==>
      ValidateFoodInput(data, parse) == Validation(false, MsgNotPositive)
  {
    FieldCheckFirst(data, Required, 0);
  }

  /** The check on a string, which either returns or raises `TypeError`. */
  datatype StrOutcome = Returned(v: Validation) | RaisedTypeError

  /**
   * `validate_food_input(s)` for a string `s`: `field not in s` is a substring
   * test, so "nombre" absent from the text returns at once; otherwise
   * `s["nombre"]` indexes a string with a string and raises.
   */
  function ValidateString(s: string): (r: StrOutcome)
    ensures r.Returned? <==> !Contains(s, NombreField)
    ensures r.Returned? ==> r.v == Validation(false, MsgMissing(NombreField))
  {
    if !Contains(s, Required[0]) then Returned(Validation(false, MsgMissing(Required[0])))
    else RaisedTypeError
  }
}
