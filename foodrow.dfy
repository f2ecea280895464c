/**
 * The food-row choice of the `/alimento` handler of the engine's backend
 * (`limpiar_nombre`, `comparar_flexible`, `get_mas_comun_flexible`).
 *
 * A name is cleaned by lower-casing it, deleting the phrases "información
 * completa de", "información de", "completa de" and "completa" (with and
 * without the accent), deleting every "de " when the text starts with "de ",
 * stripping it, and removing the combining accents of its canonical
 * decomposition; that last step is the parameter `marks`. The row chosen
 * for a query is the first row whose cleaned name equals the cleaned query,
 * else the first whose cleaned name holds or is held by it, else the first
 * row; an empty query skips both searches.
 */
module FoodRow {
  import opened Options
  import opened Text

  /** `s.replace(pat, rep)`: every non-overlapping occurrence, left to right. */
  function ReplaceAll(s: string, pat: string, rep: string): (r: string)
    requires |pat| > 0
    decreases |s|
  {
    if |s| < |pat| then s
    else if StartsWith(s, pat) then rep + ReplaceAll(s[|pat|..], pat, rep)
    else [s[0]] + ReplaceAll(s[1..], pat, rep)
  }

  /** Without an occurrence, replacing changes nothing. */
  lemma {:induction false} ReplaceAbsent(s: string, pat: string, rep: string)
    requires |pat| > 0 && !Contains(s, pat)
    ensures ReplaceAll(s, pat, rep) == s
    decreases |s|
  {
    if |s| >= |pat| {
      assert !StartsWith(s, pat);
      ReplaceAbsent(s[1..], pat, rep);
      assert [s[0]] + s[1..] == s;
    }
  }

  /** An occurrence at the start is replaced and the rest is processed on its own. */
  lemma ReplaceAtStart(pat: string, s: string, rep: string)
    requires |pat| > 0
    ensures ReplaceAll(pat + s, pat, rep) == rep + ReplaceAll(s, pat, rep)
  {
    assert (pat + s)[..|pat|] == pat;
    assert (pat + s)[|pat|..] == s;
  }

  /** Deleting never lengthens the text. */
  lemma {:induction false} DeleteShortens(s: string, pat: string)
    requires |pat| > 0
    ensures |ReplaceAll(s, pat, "")| <= |s|
    decreases |s|
  {
    if |s| >= |pat| {
      if StartsWith(s, pat) {
        DeleteShortens(s[|pat|..], pat);
      } else {
        DeleteShortens(s[1..], pat);
      }
    }
  }

  /** The phrases deleted from a name, in the order of deletion. */
  const Phrases: seq<string> := [
    "informacion completa de", "información completa de",
    "informacion de", "información de",
    "completa de", "completa"
  ]

  const DePrefix: string := "de "

  /** The phrase deletions applied in order. */
  function DeleteAll(t: string, ps: seq<string>): string
    requires forall i :: 0 <= i < |ps| ==> |ps[i]| > 0
    decreases |ps|
  {
    if |ps| == 0 then t else DeleteAll(ReplaceAll(t, ps[0], ""), ps[1..])
  }

  /** `texto.replace("de ", "") if texto.startswith("de ") else texto`. */
  function DeRule(t: string): string {
    if StartsWith(t, DePrefix) then ReplaceAll(t, DePrefix, "") else t
  }

  /** A name the first steps leave as it is: lower-case, stripped, without "de " in front and without the phrases. */
  predicate AlreadyClean(texto: string) {
    Lower(texto) == texto && PyStrip(texto) == texto && !StartsWith(texto, DePrefix) &&
    forall k :: 0 <= k < |Phrases| ==> !Contains(texto, Phrases[k])
  }

  /** `limpiar_nombre(texto)`; `marks` removes the combining accents after decomposition. */
  function Limpiar(texto: string, marks: string -> string): (r: string)
    ensures AlreadyClean(texto) ==> r == marks(texto)
  {
    if Lower(texto) == texto && (forall k :: 0 <= k < |Phrases| ==> !Contains(texto, Phrases[k])) then
      DeleteAllAbsent(texto, Phrases);
      marks(PyStrip(DeRule(DeleteAll(Lower(texto), Phrases))))
    else marks(PyStrip(DeRule(DeleteAll(Lower(texto), Phrases))))
  }

  /** Phrases that do not occur are not deleted. */
  lemma {:induction false} DeleteAllAbsent(t: string, ps: seq<string>)
    requires forall i :: 0 <= i < |ps| ==> |ps[i]| > 0
    requires forall i :: 0 <= i < |ps| ==> !Contains(t, ps[i])
    ensures DeleteAll(t, ps) == t
    decreases |ps|
  {
    if |ps| > 0 {
      ReplaceAbsent(t, ps[0], "");
      assert forall i :: 0 <= i < |ps[1..]| ==> ps[1..][i] == ps[i + 1];
      DeleteAllAbsent(t, ps[1..]);
    }
  }

  /**
   * A leading "de " deletes every "de " of the text, not only the first:
   * the rule removes the prefix and then works on the rest.
   */
  lemma DeRuleDeletesEvery(u: string)
    ensures DeRule(DePrefix + u) == ReplaceAll(u, DePrefix, "")
  {
    assert (DePrefix + u)[..|DePrefix|] == DePrefix;
    ReplaceAtStart(DePrefix, u, "");
  }

  /** A text that does not start with "de " keeps every "de " it has. */
  lemma DeRuleKeeps(t: string)
    requires !StartsWith(t, DePrefix)
    ensures DeRule(t) == t
  {
  }

  /** A leading "de " followed by a text without another one leaves just that text. */
  lemma DeRuleSingle(u: string)
    requires !Contains(u, DePrefix)
    ensures DeRule(DePrefix + u) == u
  {
    DeRuleDeletesEvery(u);
    ReplaceAbsent(u, DePrefix, "");
  }

  /** The flexible test on two cleaned names: equal, or one held in the other. */
  predicate Flexible(x: string, y: string) {
    x == y || Contains(y, x) || Contains(x, y)
  }

  /** `comparar_flexible(a, b)`. */
  predicate CompararFlexible(a: string, b: string, marks: string -> string)
    ensures CompararFlexible(a, b, marks) <==>
      Contains(Limpiar(b, marks), Limpiar(a, marks)) || Contains(Limpiar(a, marks), Limpiar(b, marks))
  {
    FlexibleIsContainment(Limpiar(a, marks), Limpiar(b, marks));
    Flexible(Limpiar(a, marks), Limpiar(b, marks))
  }

  /** Equal cleaned names are held in each other, so the flexible test is just containment. */
  lemma FlexibleIsContainment(x: string, y: string)
    ensures Flexible(x, y) <==> Contains(y, x) || Contains(x, y)
  {
    ContainsSelf(x);
  }

  /** The flexible test does not depend on the order of its arguments. */
  lemma FlexibleSymmetric(a: string, b: string, marks: string -> string)
    ensures CompararFlexible(a, b, marks) <==> CompararFlexible(b, a, marks)
  {
  }

  /** The cleaned name of every row, in row order. */
  function Cleaned<R>(rows: seq<R>, name: R -> string, marks: string -> string): (r: seq<string>)
    ensures |r| == |rows|
    ensures forall k :: 0 <= k < |rows| ==> r[k] == Limpiar(name(rows[k]), marks)
  {
    seq(|rows|, k requires 0 <= k < |rows| => Limpiar(name(rows[k]), marks))
  }

  /** The two tests of the search: equal cleaned names, and the flexible one. */
  datatype Test = ExactTest | FlexibleTest

  /** Whether a cleaned name `x` passes `test` against the cleaned query `y`. */
  predicate Passes(test: Test, x: string, y: string) {
    match test
    case ExactTest => x == y
    case FlexibleTest => Flexible(x, y)
  }

  /** The first index at or after `from` whose cleaned name passes `test` against `y`. */
  function FirstWhere(names: seq<string>, test: Test, y: string, from: nat): (r: Option<nat>)
    ensures r.Some? ==> from <= r.value < |names| && Passes(test, names[r.value], y)
    ensures r.Some? ==> forall k :: from <= k < r.value ==> !Passes(test, names[k], y)
    ensures r.None? ==> forall k :: from <= k < |names| ==> !Passes(test, names[k], y)
    decreases |names| - from
  {
    if from >= |names| then None
    else if Passes(test, names[from], y) then Some(from)
    else FirstWhere(names, test, y, from + 1)
  }

  /** The search finds the first index that passes its test. */
  lemma FirstWhereIs(names: seq<string>, test: Test, y: string, i: nat)
    requires i < |names| && Passes(test, names[i], y)
    requires forall k :: 0 <= k < i ==> !Passes(test, names[k], y)
    ensures FirstWhere(names, test, y, 0) == Some(i)
  {
  }

  /** The search finds nothing when no cleaned name passes its test. */
  lemma FirstWhereNone(names: seq<string>, test: Test, y: string)
    requires forall k :: 0 <= k < |names| ==> !Passes(test, names[k], y)
    ensures FirstWhere(names, test, y, 0).None?
  {
  }

  /** `get_mas_comun_flexible(rows, q)`, where `name(row)` is `row[1]`. */
  function MasComun<R>(rows: seq<R>, name: R -> string, q: string, marks: string -> string): (r: Option<R>)
    ensures r.None? <==> |rows| == 0
    ensures r.Some? ==> r.value in rows
  {
    var names := Cleaned(rows, name, marks);
    var y := Limpiar(q, marks);
    var exact := if q != "" then FirstWhere(names, ExactTest, y, 0) else None;
    var flexible := if q != "" then FirstWhere(names, FlexibleTest, y, 0) else None;
    if exact.Some? then Some(rows[exact.value])
    else if flexible.Some? then Some(rows[flexible.value])
    else if |rows| > 0 then Some(rows[0])
    else None
  }

  /**
   * One search loop of `get_mas_comun_flexible`: the index of the first
   * cleaned row name that passes `test` against the cleaned query `y`.
   */
  method FindFirst(names: seq<string>, test: Test, y: string) returns (r: Option<nat>)
    ensures r == FirstWhere(names, test, y, 0)
  {
    var i := 0;
    while i < |names|
      invariant 0 <= i <= |names|
      invariant forall k :: 0 <= k < i ==> !Passes(test, names[k], y)
    {
      if Passes(test, names[i], y) {
        FirstWhereIs(names, test, y, i);
        return Some(i);
      }
      i := i + 1;
    }
    FirstWhereNone(names, test, y);
    return None;
  }

  /**
   * The exact search, the flexible search and the fallback to the first row.
   * The cleaned names are computed once up front rather than inside each loop;
   * cleaning is a pure function, so the choice is the same.
   */
  method GetMasComunFlexible<R>(rows: seq<R>, name: R -> string, q: string, marks: string -> string)
    returns (r: Option<R>)
    ensures r == MasComun(rows, name, q, marks)
  {
    if q != "" {
      var names := Cleaned(rows, name, marks);
      var y := Limpiar(q, marks);
      var exact := FindFirst(names, ExactTest, y);
      if exact.Some? {
        return Some(rows[exact.value]);
      }
      var flexible := FindFirst(names, FlexibleTest, y);
      if flexible.Some? {
        return Some(rows[flexible.value]);
      }
    }
    r := if |rows| > 0 then Some(rows[0]) else None;
  }

  /** An equal cleaned name wins, at its first position, even over earlier rows that match flexibly. */
  lemma ExactWins<R>(rows: seq<R>, name: R -> string, q: string, marks: string -> string, i: nat)
    requires q != "" && i < |rows| && Limpiar(name(rows[i]), marks) == Limpiar(q, marks)
    requires forall k :: 0 <= k < i ==> Limpiar(name(rows[k]), marks) != Limpiar(q, marks)
    ensures MasComun(rows, name, q, marks) == Some(rows[i])
  {
    FirstWhereIs(Cleaned(rows, name, marks), ExactTest, Limpiar(q, marks), i);
  }

  /** Without an equal cleaned name, the first row that matches flexibly is chosen. */
  lemma FlexibleNext<R>(rows: seq<R>, name: R -> string, q: string, marks: string -> string, i: nat)
    requires q != "" && i < |rows| && CompararFlexible(name(rows[i]), q, marks)
    requires forall k :: 0 <= k < |rows| ==> Limpiar(name(rows[k]), marks) != Limpiar(q, marks)
    requires forall k :: 0 <= k < i ==> !CompararFlexible(name(rows[k]), q, marks)
    ensures MasComun(rows, name, q, marks) == Some(rows[i])
  {
    var names := Cleaned(rows, name, marks);
    FirstWhereNone(names, ExactTest, Limpiar(q, marks));
    FirstWhereIs(names, FlexibleTest, Limpiar(q, marks), i);
  }

  /** An empty query, or a query that matches no row even flexibly, gives the first row. */
  lemma FallbackFirst<R>(rows: seq<R>, name: R -> string, q: string, marks: string -> string)
    requires |rows| > 0
    requires q == "" || forall k :: 0 <= k < |rows| ==> !CompararFlexible(name(rows[k]), q, marks)
    ensures MasComun(rows, name, q, marks) == Some(rows[0])
  {
    if q != "" {
      var names := Cleaned(rows, name, marks);
      var y := Limpiar(q, marks);
      assert forall k :: 0 <= k < |names| ==> !Passes(FlexibleTest, names[k], y);
      assert forall k :: 0 <= k < |names| ==> !Passes(ExactTest, names[k], y);
      FirstWhereNone(names, ExactTest, y);
      FirstWhereNone(names, FlexibleTest, y);
    }
  }
}
