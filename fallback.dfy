/**
 * The `/chat` handler of the backend's fallback server: the prompt is
 * stripped and lower-cased, tried against a fixed chain of keyword tests in
 * order, and answered by the first branch whose test holds. The calorie
 * branch reads a quantity and a food name from the prompt and scales the
 * energy per 100 g; the nutrient branch reads a food name and lists its
 * nutrients.
 *
 * The database lookup is the parameter `lookup` (a row as a dictionary, or
 * `None`); `float(text)` is `parse`, `f"{x}"` of a float is `floatStr` and
 * `f"{x:.1f}"` is `fmt1`. The three regular expressions are explicit
 * scanners that try start positions left to right, as `re.search` does.
 */
module Fallback {
  import opened Options
  import opened Text
  import Scan
  import opened Alimento

  // ---------------------------------------------------------------- the prompt

  /** The request body: none (`Content-Length` 0) or a JSON object with or without "prompt". */
  datatype Body = NoBody | Json(prompt: Option<string>)

  /** `data.get('prompt', '').strip().lower()`, or `''` without a body. */
  function PromptOf(body: Body): (p: string)
    ensures body.NoBody? || body.prompt.None? ==> p == ""
    ensures body.Json? && body.prompt.Some? ==> p == Lower(PyStrip(body.prompt.value))
  {
    match body
    case NoBody => ""
    case Json(None) => Lower(PyStrip(""))
    case Json(Some(s)) => Lower(PyStrip(s))
  }

  // ---------------------------------------------------------------- routing

  /** The branches of the reply chain. */
  datatype Branch =
    | Saludo | Ayuda | Imc | Calorias | Nutrientes | Proteinas | Carbohidratos
    | Grasas | Vitaminas | Minerales | Dieta | Peso | Otro

  /** The branches that have a keyword test, in the order the chain tries them. */
  const Order: seq<Branch> := [
    Saludo, Ayuda, Imc, Calorias, Nutrientes, Proteinas, Carbohidratos,
    Grasas, Vitaminas, Minerales, Dieta, Peso
  ]

  /** The words whose presence selects a branch; the final `else` has none. */
  function Keywords(b: Branch): seq<string> {
    match b
    case Saludo => ["hola", "hi", "hello"]
    case Ayuda => ["ayuda", "help"]
    case Imc => ["imc", "indice", "masa corporal"]
    case Calorias => ["calor", "calorias", "kcal", "energia"]
    case Nutrientes => ["nutrient", "nutrientes", "tiene", "contiene"]
    case Proteinas => ["proteina", "proteína", "protein"]
    case Carbohidratos => ["carbohidrat", "carbs", "hidratos"]
    case Grasas => ["grasas", "lipidos", "fat"]
    case Vitaminas => ["vitamin", "vitamina"]
    case Minerales => ["mineral", "minerales"]
    case Dieta => ["dieta", "alimentacion", "comida"]
    case Peso => ["peso", "adelgazar", "bajar"]
    case Otro => []
  }

  /** The test of the `i`-th branch of the chain holds for the prompt. */
  predicate BranchHolds(prompt: string, i: nat)
    requires i < |Order|
  {
    AnyIn(prompt, Keywords(Order[i]))
  }

  /** The position of the first test from `i` on that holds. */
  function FirstTest(prompt: string, i: nat): (r: Option<nat>)
    requires i <= |Order|
    ensures r.Some? ==> i <= r.value < |Order| && BranchHolds(prompt, r.value)
    ensures r.Some? ==> forall j :: i <= j < r.value ==> !BranchHolds(prompt, j)
    ensures r.None? ==> forall j :: i <= j < |Order| ==> !BranchHolds(prompt, j)
    decreases |Order| - i
  {
    if i == |Order| then None
    else if BranchHolds(prompt, i) then Some(i)
    else FirstTest(prompt, i + 1)
  }

  /** The branch the `if`/`elif` chain takes. */
  function Route(prompt: string): (r: Branch)
    ensures r == Otro <==> forall j :: 0 <= j < |Order| ==> !BranchHolds(prompt, j)
    ensures r != Otro ==> exists k :: 0 <= k < |Order| && Order[k] == r && BranchHolds(prompt, k) &&
                                      forall j :: 0 <= j < k ==> !BranchHolds(prompt, j)
  {
    OrderRanks();
    var t := FirstTest(prompt, 0);
    if t.None? then Otro else Order[t.value]
  }

  /** The position of each branch in the chain. */
  function Rank(b: Branch): nat {
    match b
    case Saludo => 0 case Ayuda => 1 case Imc => 2 case Calorias => 3 case Nutrientes => 4
    case Proteinas => 5 case Carbohidratos => 6 case Grasas => 7 case Vitaminas => 8
    case Minerales => 9 case Dieta => 10 case Peso => 11 case Otro => 12
  }

  /** Every branch of the chain sits at its rank, so no branch is tried twice and the final `else` is not tried. */
  lemma OrderRanks()
    ensures forall i :: 0 <= i < |Order| ==> Rank(Order[i]) == i
  {
  }

  /**
   * The first test that holds decides the branch: the chain answers with
   * branch `k` exactly when test `k` holds and no earlier one does, and
   * falls through to the final `else` exactly when none holds.
   */
  lemma RouteFirst(prompt: string, k: nat)
    requires k < |Order|
    ensures Route(prompt) == Order[k] <==> BranchHolds(prompt, k) && forall j :: 0 <= j < k ==> !BranchHolds(prompt, j)
    ensures Route(prompt) == Otro <==> forall j :: 0 <= j < |Order| ==> !BranchHolds(prompt, j)
  {
    OrderRanks();
    var t := FirstTest(prompt, 0);
    if t.Some? {
      assert Rank(Order[t.value]) == t.value;
      if Route(prompt) == Order[k] {
        assert Rank(Order[k]) == k;
      }
    }
  }

  /** The greeting test comes first, and "hi" is one of its words. */
  lemma GreetingFirst(prompt: string)
    requires Contains(prompt, "hi")
    ensures Route(prompt) == Saludo
  {
    assert Keywords(Order[0])[1] == "hi";
    AnyInIff(prompt, Keywords(Order[0]));
    RouteFirst(prompt, 0);
  }

  /** Asking about carbohydrates or iron gets the greeting, because both words hold "hi". */
  lemma GreetingCatchesHi()
    ensures Route("carbohidratos") == Saludo
    ensures Route("hierro") == Saludo
  {
    ContainsAt("carbohidratos", "hi", 5);
    GreetingFirst("carbohidratos");
    ContainsAt("hierro", "hi", 0);
    GreetingFirst("hierro");
  }

  lemma KeywordsNonEmpty(b: Branch)
    ensures forall k :: 0 <= k < |Keywords(b)| ==> Keywords(b)[k] != ""
  {
  }

  /** The empty prompt, like every prompt without a keyword, gets the final `else`. */
  lemma EmptyPromptDefault()
    ensures Route("") == Otro
  {
    forall j | 0 <= j < |Order|
      ensures !BranchHolds("", j)
    {
      KeywordsNonEmpty(Order[j]);
      AnyInNonEmpty("", Keywords(Order[j]));
    }
    RouteFirst("", 0);
  }

  // ---------------------------------------------------------------- character classes

  /** `[a-zA-Záéíóúñ\s]` under IGNORECASE. */
  predicate IsNameChar(c: char) {
    ('a' <= c <= 'z') || ('A' <= c <= 'Z') || IsPySpace(c)
    || c == 'á' || c == 'é' || c == 'í' || c == 'ó' || c == 'ú' || c == 'ñ'
    || c == 'Á' || c == 'É' || c == 'Í' || c == 'Ó' || c == 'Ú' || c == 'Ñ'
  }

  /** The length of the run of name characters that starts at `q` (a greedy `[…]*`). */
  function NameRun(s: string, q: nat): (n: nat)
    requires q <= |s|
    ensures q + n <= |s|
    ensures forall k :: q <= k < q + n ==> IsNameChar(s[k])
    ensures q + n == |s| || !IsNameChar(s[q + n])
    decreases |s| - q
  {
    if q < |s| && IsNameChar(s[q]) then 1 + NameRun(s, q + 1) else 0
  }

  /** The end of the run of whitespace that starts at `q` (a greedy `\s*`). */
  function SpaceEnd(s: string, q: nat): (e: nat)
    requires q <= |s|
    ensures q <= e <= |s|
    ensures forall k :: q <= k < e ==> IsPySpace(s[k])
    ensures e == |s| || !IsPySpace(s[e])
    decreases |s| - q
  {
    if q < |s| && IsPySpace(s[q]) then SpaceEnd(s, q + 1) else q
  }

  /** The end of the run of whitespace that starts at `q`, stopping at `n`. */
  function SpaceEndBefore(s: string, q: nat, n: nat): (e: nat)
    requires q <= n <= |s|
    ensures q <= e <= n
    ensures forall k :: q <= k < e ==> IsPySpace(s[k])
    ensures e == n || !IsPySpace(s[e])
    decreases n - q
  {
    if q < n && IsPySpace(s[q]) then SpaceEndBefore(s, q + 1, n) else q
  }

  /** The end of the run of non-whitespace that starts at `q`, stopping at `n`. */
  function WordEnd(s: string, q: nat, n: nat): (e: nat)
    requires q <= n <= |s|
    ensures q <= e <= n
    ensures forall k :: q <= k < e ==> !IsPySpace(s[k])
    ensures e == n || IsPySpace(s[e])
    decreases n - q
  {
    if q < n && !IsPySpace(s[q]) then WordEnd(s, q + 1, n) else q
  }

  /** A captured group, as the indices where it starts and ends. */
  datatype Span = Span(start: nat, end: nat)

  /**
   * `\s+` already matched up to its greedy end `k` (from `q`, with `q < k`),
   * followed by a group `([…]+)`: the group is the name run at `k`, or, when
   * that is empty and the `\s+` took more than one character, the last
   * character given back by the `\s+`.
   */
  function GroupAfterSpaces(s: string, q: nat, k: nat): (r: Option<Span>)
    requires q < k <= |s|
    requires forall i :: q <= i < k ==> IsPySpace(s[i])
    ensures r.Some? ==> q < r.value.start < r.value.end <= |s|
  {
    if NameRun(s, k) > 0 then Some(Span(k, k + NameRun(s, k)))
    else if k - 1 > q then Some(Span(k - 1, k))
    else None
  }

  // ---------------------------------------------------------------- the quantity pattern

  /** The unit alternatives `(?:g|kg|gr|gramos?)`, in the order the engine tries them. */
  const Units: seq<string> := ["g", "kg", "gr", "gramos", "gramo"]

  /** The first unit at `f` that is followed by whitespace (the `\s+` after the unit). */
  function UnitAt(s: string, f: nat, units: seq<string>): (r: Option<string>)
    requires f <= |s|
    ensures r.Some? ==> f + |r.value| < |s| && StartsWith(s[f..], r.value) && IsPySpace(s[f + |r.value|])
    ensures r.Some? ==> r.value in units
    decreases |units|
  {
    if |units| == 0 then None
    else if f + |units[0]| < |s| && StartsWith(s[f..], units[0]) && IsPySpace(s[f + |units[0]|]) then Some(units[0])
    else UnitAt(s, f, units[1..])
  }

  /** A match of the quantity pattern: the number, where it ends, the unit, and group 2. */
  datatype QtyHit = QtyHit(cantidad: real, numEnd: nat, unit: string, food: Span)

  /** `\d+(?:\.\d+)?` at `p`: the value and the end, greedily. */
  function NumberAt(s: string, p: nat): (r: Option<(real, nat)>)
    requires p <= |s|
    ensures r.Some? ==> p < r.value.1 <= |s| && IsDigit(s[p])
    ensures r.Some? ==> forall k :: p <= k < r.value.1 ==> IsDigit(s[k]) || s[k] == '.'
  {
    var run := Scan.DigitRun(s, p);
    if run == 0 then None
    else
      var i := p + run;
      var whole := Scan.DigitsValue(s[p..i]) as real;
      if i + 1 < |s| && s[i] == '.' && IsDigit(s[i + 1]) then
        var f := Scan.DigitRun(s, i + 1);
        Some((whole + Scan.FracValue(s[i + 1..i + 1 + f]), i + 1 + f))
      else Some((whole, i))
  }

  const DeWord: string := "de"

  /** `de\s+` at `h`. */
  predicate DeAt(s: string, h: nat) {
    h + |DeWord| < |s| && StartsWith(s[h..], DeWord) && IsPySpace(s[h + |DeWord|])
  }

  /**
   * `\s+(?:de\s+)?([a-zA-Záéíóúñ\s]+)` after the unit, which ends at `g`:
   * with the optional "de" when what follows it still leaves a group, else
   * without it.
   */
  function FoodAfterUnit(s: string, g: nat): (r: Option<Span>)
    requires g < |s| && IsPySpace(s[g])
    ensures r.Some? ==> g < r.value.start < r.value.end <= |s|
  {
    var h := SpaceEnd(s, g);
    if DeAt(s, h) then
      var withDe := GroupAfterSpaces(s, h + |DeWord|, SpaceEnd(s, h + |DeWord|));
      if withDe.Some? then withDe else GroupAfterSpaces(s, g, h)
    else GroupAfterSpaces(s, g, h)
  }

  /**
   * `(\d+(?:\.\d+)?)\s*(?:g|kg|gr|gramos?)\s+(?:de\s+)?([a-zA-Záéíóúñ\s]+)`
   * tried at start position `p`.
   */
  function QtyAt(s: string, p: nat): (r: Option<QtyHit>)
    requires p <= |s|
    ensures r.Some? ==> p < r.value.numEnd < r.value.food.start < r.value.food.end <= |s|
  {
    var num := NumberAt(s, p);
    if num.None? then None else QtyAfterNumber(s, num.value.0, num.value.1)
  }

  /** The rest of the quantity pattern, after a number with value `cantidad` that ends at `e`. */
  function QtyAfterNumber(s: string, cantidad: real, e: nat): (r: Option<QtyHit>)
    requires e <= |s|
    ensures r.Some? ==> r.value.cantidad == cantidad && r.value.numEnd == e
    ensures r.Some? ==> e < r.value.food.start < r.value.food.end <= |s|
  {
    var f := SpaceEnd(s, e);
    var u := UnitAt(s, f, Units);
    if u.None? then None
    else
      var food := FoodAfterUnit(s, f + |u.value|);
      if food.None? then None else Some(QtyHit(cantidad, e, u.value, food.value))
  }

  /** `re.search` of the quantity pattern from position `p`: the first start position that matches. */
  function QtySearch(s: string, p: nat): (r: Option<(nat, QtyHit)>)
    requires p <= |s|
    ensures r.Some? ==> p <= r.value.0 <= |s| && QtyAt(s, r.value.0) == Some(r.value.1)
    ensures r.Some? ==> forall q :: p <= q < r.value.0 ==> QtyAt(s, q).None?
    ensures r.None? ==> forall q :: p <= q <= |s| ==> QtyAt(s, q).None?
    decreases |s| - p
  {
    var here := QtyAt(s, p);
    if here.Some? then Some((p, here.value))
    else if p == |s| then None
    else QtySearch(s, p + 1)
  }

  /** `w` is written in `s` at `c`. */
  predicate WordAt(s: string, c: nat, w: string) {
    c + |w| <= |s| && s[c..c + |w|] == w
  }

  /**
   * `s[p..n].split()[1]`: the second whitespace-separated word of the text
   * from `p` to `n`, or `None` for the `IndexError` of a text with fewer
   * than two words.
   */
  function SplitSecond(s: string, p: nat, n: nat): (r: Option<string>)
    requires p <= n <= |s|
    ensures r.Some? ==> |r.value| > 0 && forall k :: 0 <= k < |r.value| ==> !IsPySpace(r.value[k])
    ensures r.Some? ==> exists c :: p <= c && c + |r.value| <= n && WordAt(s, c, r.value)
  {
    var a := SpaceEndBefore(s, p, n);
    var b := WordEnd(s, a, n);
    var c := SpaceEndBefore(s, b, n);
    if c == n then None
    else
      var e := WordEnd(s, c, n);
      assert WordAt(s, c, s[c..e]);
      Some(s[c..e])
  }

  /**
   * As written: `unidad = match.group(0).split()[1].lower()` is the word
   * after the first whitespace of the match, and the quantity is converted
   * when it starts with "kg"; `None` is the `IndexError` of a match with a
   * single word.
   */
  function KgAsWritten(s: string, p: nat, hit: QtyHit): (r: Option<bool>)
    requires p <= hit.food.end <= |s|
    ensures r.None? <==> SplitSecond(s, p, hit.food.end).None?
    ensures r == Some(true) ==> Contains(Lower(s[p..hit.food.end]), "kg")
  {
    var w := SplitSecond(s, p, hit.food.end);
    if w.None? then None
    else if StartsWith(Lower(w.value), "kg") then KgInMatch(s, p, hit.food.end, w.value); Some(true)
    else Some(false)
  }

  /** A word of the text from `p` to `n` that starts with "kg" in lower case puts "kg" in the lower-cased text. */
  lemma KgInMatch(s: string, p: nat, n: nat, w: string)
    requires n <= |s| && StartsWith(Lower(w), "kg")
    requires exists c :: p <= c && c + |w| <= n && WordAt(s, c, w)
    ensures Contains(Lower(s[p..n]), "kg")
  {
    var c :| p <= c && c + |w| <= n && WordAt(s, c, w);
    var low := Lower(s[p..n]);
    assert |w| >= 2;
    assert forall k :: 0 <= k < |w| ==> s[c + k] == w[k];
    assert low[c - p] == Lower(w)[0] && low[c - p + 1] == Lower(w)[1];
    assert low[c - p..][..2] == "kg";
    ContainsAt(low, "kg", c - p);
  }

  /** Corrected: the unit the pattern matched is kilograms. */
  predicate IsKg(hit: QtyHit) {
    hit.unit == "kg"
  }

  /** The quantity in grams, as the corrected reading computes it. */
  function Grams(hit: QtyHit): (c: real)
    ensures IsKg(hit) ==> c == hit.cantidad * 1000.0
    ensures !IsKg(hit) ==> c == hit.cantidad
  {
    if IsKg(hit) then hit.cantidad * 1000.0 else hit.cantidad
  }

  /** A prompt whose quantity is written "2kg de arroz", the number glued to its unit. */
  const Glued: string := "2kg de arroz"

  /** A prompt whose quantity is written "2kg  5": two spaces, then no food name. */
  const GluedSpaces: string := "2kg  5"

  /** What follows the food name ends it: nothing, or a character the name group does not take. */
  predicate EndsName(t: string) {
    |t| == 0 || !IsNameChar(t[0])
  }

  /** The pattern reads a prompt starting with "2kg de arroz" as 2 kg of "arroz". */
  lemma TwoKgMatch(s: string, t: string)
    requires s == Glued + t && EndsName(t)
    ensures QtyAt(s, 0) == Some(QtyHit(2.0, 1, "kg", Span(7, 12)))
  {
    TwoKgNumber(s, t);
    assert SpaceEnd(s, 1) == 1;
    TwoKgUnit(s, t);
    TwoKgFood(s, t);
  }

  lemma TwoKgNumber(s: string, t: string)
    requires s == Glued + t
    ensures NumberAt(s, 0) == Some((2.0, 1))
  {
    assert s[0] == '2' && s[1] == 'k';
    assert Scan.DigitRun(s, 1) == 0;
    assert Scan.DigitRun(s, 0) == 1;
    assert s[0..1] == "2";
    assert Scan.DigitsValue("2") == 2 by {
      assert "2"[..0] == "";
    }
  }

  lemma TwoKgUnit(s: string, t: string)
    requires s == Glued + t
    ensures UnitAt(s, 1, Units) == Some("kg")
  {
    assert s[1] == 'k' && s[2] == 'g' && s[3] == ' ';
    assert s[1..][0] == 'k';
    assert s[1..][..2] == "kg";
    assert UnitAt(s, 1, Units[1..]) == Some("kg");
  }

  lemma TwoKgFood(s: string, t: string)
    requires s == Glued + t && EndsName(t)
    ensures FoodAfterUnit(s, 3) == Some(Span(7, 12))
  {
    assert s[..12] == Glued;
    assert s[3] == ' ' && s[4] == 'd' && s[5] == 'e' && s[6] == ' ';
    assert s[7] == 'a' && s[8] == 'r' && s[9] == 'r' && s[10] == 'o' && s[11] == 'z';
    assert SpaceEnd(s, 4) == 4;
    assert SpaceEnd(s, 3) == 4;
    assert s[4..][..2] == DeWord;
    assert DeAt(s, 4);
    assert SpaceEnd(s, 7) == 7;
    assert SpaceEnd(s, 6) == 7;
    assert NameRun(s, 12) == 0 by {
      if |t| > 0 {
        assert s[12] == t[0];
      }
    }
    assert NameRun(s, 7) == 5;
  }

  /**
   * "2kg de arroz" is 2 kg, but as written the word after the first space is
   * "de", so the quantity stays 2 instead of 2000 grams.
   */
  lemma KgGluedNotConverted(s: string, t: string)
    requires s == Glued + t && EndsName(t)
    ensures KgAsWritten(s, 0, QtyHit(2.0, 1, "kg", Span(7, 12))) == Some(false)
    ensures Grams(QtyHit(2.0, 1, "kg", Span(7, 12))) == 2000.0
  {
    SplitSecondDe(s, t);
    assert Lower("de")[0] == 'd';
  }

  lemma SplitSecondDe(s: string, t: string)
    requires s == Glued + t
    ensures SplitSecond(s, 0, 12) == Some("de")
  {
    assert s[..12] == Glued;
    assert s[0] == '2' && s[1] == 'k' && s[2] == 'g' && s[3] == ' ' && s[4] == 'd' && s[5] == 'e' && s[6] == ' ';
    assert SpaceEndBefore(s, 0, 12) == 0;
    WordEndStops(s, 0, 3, 12);
    assert SpaceEndBefore(s, 4, 12) == 4;
    assert SpaceEndBefore(s, 3, 12) == 4;
    WordEndStops(s, 4, 6, 12);
    assert s[4..6] == "de";
  }

  /**
   * In a prompt starting with "2kg  5" the pattern gives back one of the two
   * spaces as the food group, so the match "2kg  " has a single word and, as
   * written, indexing its second word raises; the corrected reading has the
   * unit. The match itself is `TwoKgSpacesMatch`.
   */
  lemma KgGluedSingleWord(s: string, t: string)
    requires s == GluedSpaces + t
    ensures KgAsWritten(s, 0, QtyHit(2.0, 1, "kg", Span(4, 5))).None?
    ensures Grams(QtyHit(2.0, 1, "kg", Span(4, 5))) == 2000.0
  {
    assert s[0] == '2' && s[1] == 'k' && s[2] == 'g' && s[3] == ' ' && s[4] == ' ';
    assert SpaceEndBefore(s, 0, 5) == 0;
    WordEndStops(s, 0, 3, 5);
    assert SpaceEndBefore(s, 3, 5) == 5;
  }

  lemma TwoKgSpacesMatch(s: string, t: string)
    requires s == GluedSpaces + t
    ensures QtyAt(s, 0) == Some(QtyHit(2.0, 1, "kg", Span(4, 5)))
  {
    TwoKgSpacesNumber(s, t);
    assert SpaceEnd(s, 1) == 1;
    TwoKgSpacesUnit(s, t);
    TwoKgSpacesFood(s, t);
  }

  lemma TwoKgSpacesNumber(s: string, t: string)
    requires s == GluedSpaces + t
    ensures NumberAt(s, 0) == Some((2.0, 1))
  {
    assert s[0] == '2' && s[1] == 'k';
    assert Scan.DigitRun(s, 1) == 0;
    assert Scan.DigitRun(s, 0) == 1;
    assert s[0..1] == "2";
    assert Scan.DigitsValue("2") == 2 by {
      assert "2"[..0] == "";
    }
  }

  lemma TwoKgSpacesUnit(s: string, t: string)
    requires s == GluedSpaces + t
    ensures UnitAt(s, 1, Units) == Some("kg")
  {
    assert s[1] == 'k' && s[2] == 'g' && s[3] == ' ';
    assert s[1..][0] == 'k';
    assert s[1..][..2] == "kg";
    assert UnitAt(s, 1, Units[1..]) == Some("kg");
  }

  lemma TwoKgSpacesFood(s: string, t: string)
    requires s == GluedSpaces + t
    ensures FoodAfterUnit(s, 3) == Some(Span(4, 5))
  {
    assert s[3] == ' ' && s[4] == ' ' && s[5] == '5';
    assert SpaceEnd(s, 4) == 5;
    assert SpaceEnd(s, 3) == 5;
    assert NameRun(s, 5) == 0;
  }

  /** A unit of the pattern: no whitespace in it, already lower-case, and "kg" the only one starting with "kg". */
  lemma UnitWord(u: string)
    requires u in Units
    ensures forall k :: 0 <= k < |u| ==> !IsPySpace(u[k])
    ensures Lower(u) == u
    ensures StartsWith(u, "kg") <==> u == "kg"
  {
    assert u == Units[0] || u == Units[1] || u == Units[2] || u == Units[3] || u == Units[4];
    assert forall k :: 0 <= k < |u| ==> 'a' <= u[k] <= 'z';
    assert forall k :: 0 <= k < |u| ==> Lower(u)[k] == u[k];
    if u == "kg" {
      assert u[..2] == "kg";
    } else {
      assert u[0] == 'g';
    }
  }

  /** What a match of the quantity pattern at `p` is made of. */
  lemma QtyParts(s: string, p: nat, hit: QtyHit)
    requires p <= |s| && QtyAt(s, p) == Some(hit)
    ensures IsDigit(s[p])
    ensures forall k :: p <= k < hit.numEnd ==> IsDigit(s[k]) || s[k] == '.'
    ensures UnitAt(s, SpaceEnd(s, hit.numEnd), Units) == Some(hit.unit)
    ensures SpaceEnd(s, hit.numEnd) + |hit.unit| < hit.food.start
  {
    var num := NumberAt(s, p).value;
    assert QtyAfterNumber(s, num.0, num.1) == Some(hit);
  }

  /** A unit found in the text puts no whitespace there. */
  lemma UnitNoSpace(s: string, f: nat, u: string)
    requires f <= |s| && StartsWith(s[f..], u)
    requires forall k :: 0 <= k < |u| ==> !IsPySpace(u[k])
    ensures forall k :: f <= k < f + |u| ==> !IsPySpace(s[k])
    ensures s[f..f + |u|] == u
  {
    forall k | f <= k < f + |u|
      ensures !IsPySpace(s[k])
    {
      assert s[k] == s[f..][..|u|][k - f];
    }
    assert s[f..][..|u|] == s[f..f + |u|];
  }

  /**
   * With whitespace between the number and the unit, the second word of the
   * match is the unit, so the as-written reading and the corrected one agree.
   */
  lemma KgSpacedAgrees(s: string, p: nat, hit: QtyHit)
    requires p <= |s| && QtyAt(s, p) == Some(hit)
    requires hit.numEnd < |s| && IsPySpace(s[hit.numEnd])
    ensures SplitSecond(s, p, hit.food.end) == Some(hit.unit)
    ensures KgAsWritten(s, p, hit) == Some(IsKg(hit))
  {
    QtyParts(s, p, hit);
    UnitWord(hit.unit);
    assert forall k :: p <= k < hit.numEnd ==> !IsPySpace(s[k]);
    SpacedSplit(s, p, hit.numEnd, hit.unit, hit.food.end);
  }

  /** The second word of a text whose first word ends at whitespace at `e` and whose second is `u`. */
  lemma SpacedSplit(s: string, p: nat, e: nat, u: string, n: nat)
    requires p < e < n <= |s|
    requires forall k :: p <= k < e ==> !IsPySpace(s[k])
    requires IsPySpace(s[e])
    requires SpaceEnd(s, e) + |u| < n
    requires StartsWith(s[SpaceEnd(s, e)..], u) && IsPySpace(s[SpaceEnd(s, e) + |u|])
    requires forall k :: 0 <= k < |u| ==> !IsPySpace(u[k])
    ensures SplitSecond(s, p, n) == Some(u)
  {
    var f := SpaceEnd(s, e);
    UnitNoSpace(s, f, u);
    assert SpaceEndBefore(s, p, n) == p;
    WordEndStops(s, p, e, n);
    SpaceEndBeforeAgrees(s, e, n);
    WordEndStops(s, f, f + |u|, n);
  }

  lemma {:induction false} WordEndStops(s: string, q: nat, e: nat, n: nat)
    requires q <= e < n <= |s| && IsPySpace(s[e])
    requires forall k :: q <= k < e ==> !IsPySpace(s[k])
    ensures WordEnd(s, q, n) == e
    decreases e - q
  {
    if q < e {
      WordEndStops(s, q + 1, e, n);
    }
  }

  /** A whitespace run that ends before `n` ends in the same place when stopped at `n`. */
  lemma {:induction false} SpaceEndBeforeAgrees(s: string, q: nat, n: nat)
    requires q <= n <= |s| && SpaceEnd(s, q) < n
    ensures SpaceEndBefore(s, q, n) == SpaceEnd(s, q)
    decreases n - q
  {
    if q < n && IsPySpace(s[q]) {
      SpaceEndBeforeAgrees(s, q + 1, n);
    }
  }

  // ---------------------------------------------------------------- the single-name pattern

  /** `(?:de\s+|sobre\s+|en\s+)?` before the group, in that order. */
  const NamePrefixes: seq<string> := ["de", "sobre", "en"]

  /** `(?:de\s+|sobre\s+|en\s+)?([a-zA-Záéíóúñ\s]+)` tried at start position `p`. */
  function NameAt(s: string, p: nat): (r: Option<Span>)
    requires p <= |s|
    ensures r.Some? ==> p <= r.value.start < r.value.end <= |s|
  {
    var pre := PrefixAt(s, p, NamePrefixes);
    if pre.Some? then pre
    else if NameRun(s, p) > 0 then Some(Span(p, p + NameRun(s, p)))
    else None
  }

  /** The group after the first prefix of `prefixes` that is followed by whitespace and a group. */
  function PrefixAt(s: string, p: nat, prefixes: seq<string>): (r: Option<Span>)
    requires p <= |s|
    ensures r.Some? ==> p <= r.value.start < r.value.end <= |s|
    decreases |prefixes|
  {
    if |prefixes| == 0 then None
    else
      var w := prefixes[0];
      if p + |w| < |s| && StartsWith(s[p..], w) && IsPySpace(s[p + |w|]) then
        var g := GroupAfterSpaces(s, p + |w|, SpaceEnd(s, p + |w|));
        if g.Some? then g else PrefixAt(s, p, prefixes[1..])
      else PrefixAt(s, p, prefixes[1..])
  }

  /** `re.search` of the single-name pattern from position `p`. */
  function NameSearch(s: string, p: nat): (r: Option<Span>)
    requires p <= |s|
    ensures r.Some? ==> r.value.start < r.value.end <= |s|
    decreases |s| - p
  {
    var here := NameAt(s, p);
    if here.Some? then here
    else if p == |s| then None
    else NameSearch(s, p + 1)
  }

  /** A prompt holding any name character (every prompt of the calorie branch does) names a food. */
  lemma {:induction false} NameSearchFinds(s: string, p: nat, q: nat)
    requires p <= q < |s| && IsNameChar(s[q])
    ensures NameSearch(s, p).Some?
    decreases q - p
  {
    if NameAt(s, p).None? {
      NameSearchFinds(s, p + 1, q);
    }
  }

  // ---------------------------------------------------------------- the nutrient pattern

  /** `(?:nutrientes?|tiene|contiene|de)`, in the order the engine tries them. */
  const NutrientWords: seq<string> := ["nutrientes", "nutriente", "tiene", "contiene", "de"]

  /** `(?:la|el|las|los)?`, in the order the engine tries them. */
  const Articles: seq<string> := ["la", "el", "las", "los"]

  /** The first article at `b`. */
  function ArticleAt(s: string, b: nat, arts: seq<string>): (r: Option<string>)
    requires b <= |s|
    ensures r.Some? ==> b + |r.value| <= |s| && r.value in arts
    decreases |arts|
  {
    if |arts| == 0 then None
    else if b + |arts[0]| <= |s| && StartsWith(s[b..], arts[0]) then Some(arts[0])
    else ArticleAt(s, b, arts[1..])
  }

  /**
   * `\s+(?:la|el|las|los)?\s*([…]+)` after a keyword ending at `a`: the group
   * after the article when there is one, else the group after the spaces.
   */
  function AfterKeyword(s: string, a: nat): (r: Option<Span>)
    requires a <= |s|
    ensures r.Some? ==> a < r.value.start < r.value.end <= |s|
  {
    if a < |s| && IsPySpace(s[a]) then
      var b := SpaceEnd(s, a);
      var art := ArticleAt(s, b, Articles);
      var withArt :=
        if art.None? then None
        else
          var c := b + |art.value|;
          var d := SpaceEnd(s, c);
          if NameRun(s, d) > 0 then Some(Span(d, d + NameRun(s, d)))
          else if d > c then Some(Span(d - 1, d))
          else None;
      if withArt.Some? then withArt else GroupAfterSpaces(s, a, b)
    else None
  }

  /** `(?:nutrientes?|tiene|contiene|de)\s+(?:la|el|las|los)?\s*([…]+)` at start position `p`. */
  function NutrientAt(s: string, p: nat, words: seq<string>): (r: Option<Span>)
    requires p <= |s|
    ensures r.Some? ==> p < r.value.start < r.value.end <= |s|
    decreases |words|
  {
    if |words| == 0 then None
    else
      var w := words[0];
      var here := if p + |w| <= |s| && StartsWith(s[p..], w) then AfterKeyword(s, p + |w|) else None;
      if here.Some? then here else NutrientAt(s, p, words[1..])
  }

  /** `re.search` of the nutrient pattern from position `p`. */
  function NutrientSearch(s: string, p: nat): (r: Option<Span>)
    requires p <= |s|
    ensures r.Some? ==> r.value.start < r.value.end <= |s|
    decreases |s| - p
  {
    var here := NutrientAt(s, p, NutrientWords);
    if here.Some? then here
    else if p == |s| then None
    else NutrientSearch(s, p + 1)
  }

  // ---------------------------------------------------------------- replies

  const MsgSaludo: string := "¡Hola! Soy CalyxAI, tu asistente nutricional. ¿En qué puedo ayudarte hoy?"
  const MsgAyuda: string := "Puedo ayudarte con consultas nutricionales, información sobre alimentos, cálculos de macronutrientes y consejos dietéticos. ¿Qué necesitas saber?"
  const MsgImc: string := "Para calcular tu IMC, necesito saber tu peso en kg y tu altura en metros. Por ejemplo: \"¿Cuál es mi IMC si peso 70kg y mido 1.75m?\". ¿Me das tus datos?"
  const MsgCaloriasSinAlimento: string := "Para calcular calorías, dime qué alimento y cantidad quieres consultar. Por ejemplo: \"100g de arroz\" o \"una manzana\". ¿Qué alimento te interesa?"
  const MsgNutrientesSinAlimento: string := "Para consultar nutrientes de un alimento, dime el nombre del alimento. Por ejemplo: \"¿Qué nutrientes tiene la manzana?\". ¿Qué alimento quieres consultar?"
  const MsgProteinas: string := "Las proteínas son macronutrientes esenciales para el crecimiento y reparación de tejidos. Fuentes ricas incluyen: carnes, pescados, huevos, legumbres (lentejas, garbanzos), nueces y productos lácteos. ¿Quieres información sobre algún alimento específico?"
  const MsgCarbohidratos: string := "Los carbohidratos son la principal fuente de energía. Se clasifican en simples (azúcares) y complejos (cereales integrales, legumbres). Son importantes para el funcionamiento del cerebro y músculos. ¿Te gustaría saber sobre algún tipo específico?"
  const MsgGrasas: string := "Las grasas son necesarias para muchas funciones corporales. Incluyen grasas saturadas (carnes, lácteos), monoinsaturadas (aceite de oliva, aguacate) y poliinsaturadas (pescados, nueces). ¿Quieres información sobre algún tipo de grasa?"
  const MsgVitaminas: string := "Las vitaminas son micronutrientes esenciales. Las más importantes en nutrición incluyen: vitamina A (visión), C (inmunidad), D (huesos), E (antioxidante) y complejo B (energía). ¿Sobre qué vitamina quieres saber?"
  const MsgMinerales: string := "Los minerales son micronutrientes inorgánicos. Los principales incluyen: calcio (huesos), hierro (sangre), zinc (inmunidad), yodo (tiroides), potasio (músculos) y magnesio (nervios). ¿Quieres información sobre algún mineral específico?"
  const MsgDieta: string := "Una alimentación saludable debe incluir: verduras y frutas (50% de la dieta), cereales integrales, proteínas magras, lácteos bajos en grasa y grasas saludables. La clave es la variedad y el equilibrio. ¿Qué tipo de dieta te interesa?"
  const MsgPeso: string := "Para perder peso de forma saludable: combina dieta equilibrada con ejercicio, crea déficit calórico moderado (500 kcal/día), incluye proteínas en cada comida, come verduras y frutas, bebe agua y duerme bien. ¿Quieres consejos más específicos?"
  const MsgOtro: string := "Soy tu asistente nutricional. Puedo ayudarte con información sobre alimentos, cálculo de IMC, consejos dietéticos y nutrición general. ¿Qué consulta nutricional tienes?"

  /**
   * The reply: one of the fixed texts of a branch or a composed message (both
   * sent with status 200), or the `except` branch's internal error (status 500).
   */
  datatype Reply = Fixed(branch: Branch) | Message(text: string) | InternalError

  /** The fixed text of each branch; the calorie and nutrient branches use theirs when no food is named. */
  function FixedText(b: Branch): string {
    match b
    case Saludo => MsgSaludo
    case Ayuda => MsgAyuda
    case Imc => MsgImc
    case Calorias => MsgCaloriasSinAlimento
    case Nutrientes => MsgNutrientesSinAlimento
    case Proteinas => MsgProteinas
    case Carbohidratos => MsgCarbohidratos
    case Grasas => MsgGrasas
    case Vitaminas => MsgVitaminas
    case Minerales => MsgMinerales
    case Dieta => MsgDieta
    case Peso => MsgPeso
    case Otro => MsgOtro
  }

  /** The `message` field of the JSON answer, or `None` for the internal error. */
  function MessageOf(r: Reply): Option<string> {
    match r
    case Fixed(b) => Some(FixedText(b))
    case Message(t) => Some(t)
    case InternalError => None
  }

  /** A database row as the lookup returns it. */
  type Row = map<string, Cell>

  /** `row.get(key, default)`. */
  function RowGet(row: Row, key: string, default: Cell): Cell {
    if key in row then row[key] else default
  }

  /** `float(v)` of a truthy cell; `None` is the `ValueError` of a text that does not parse. */
  function CellFloat(v: Cell, parse: string -> Option<real>): Option<real> {
    match v
    case CText(t) => parse(t)
    case CInt(i) => Some(i as real)
    case CReal(x) => Some(x)
    case CNull => None
  }

  const EnergiaKey: string := "energia (kcal)"

  /** `info and info.get('energia (kcal)')`. */
  predicate HasEnergy(info: Option<Row>) {
    info.Some? && EnergiaKey in info.value && Truthy(info.value[EnergiaKey])
  }

  /** The " (Basado en … kcal por 100g)" note, added for every quantity but 100. */
  function BasadoEn(cantidad: real, e100: real, floatStr: real -> string): (t: string)
    ensures t == "" <==> cantidad == 100.0
  {
    if cantidad != 100.0 then " (Basado en " + floatStr(e100) + " kcal por 100g)" else ""
  }

  /** The energy of `cantidad` grams of a food with `e100` kcal per 100 g. */
  function EnergyFor(e100: real, cantidad: real): (e: real)
    ensures cantidad == 100.0 ==> e == e100
    ensures e100 >= 0.0 && cantidad >= 0.0 ==> e >= 0.0
  {
    (e100 * cantidad) / 100.0
  }

  /** The answer for `cantidad` grams of the food `nombre` with `e100` kcal per 100 g. */
  function EnergyText(cantidad: real, nombre: string, e100: real, floatStr: real -> string, fmt1: real -> string): string {
    floatStr(cantidad) + "g de " + nombre + " contienen aproximadamente " + fmt1(EnergyFor(e100, cantidad)) + " kcal." +
    BasadoEn(cantidad, e100, floatStr)
  }

  /** The reply of the calorie branch for a prompt with a quantity. */
  function QtyReply(alimento: string, cantidad: real, lookup: string -> Option<Row>, parse: string -> Option<real>,
                    floatStr: real -> string, fmt1: real -> string): (r: Reply)
    ensures r.InternalError? <==> HasEnergy(lookup(alimento)) && CellFloat(lookup(alimento).value[EnergiaKey], parse).None?
    ensures !HasEnergy(lookup(alimento)) ==> r.Message? && Contains(r.text, Quoted(alimento))
  {
    var info := lookup(alimento);
    if HasEnergy(info) then
      var e100 := CellFloat(info.value[EnergiaKey], parse);
      if e100.None? then InternalError
      else
        var nombre := Show(RowGet(info.value, "alimento", CText(alimento)), floatStr);
        Message(EnergyText(cantidad, nombre, e100.value, floatStr, fmt1))
    else
      var tail := ". ¿Puedes verificar el nombre del alimento?";
      QuotedIn("No encontré información calórica específica para ", alimento, tail);
      Message("No encontré información calórica específica para " + Quoted(alimento) + tail)
  }

  /** The food name between double quotes, as the replies that did not find it show it. */
  function Quoted(alimento: string): string {
    "\"" + alimento + "\""
  }

  /** A text made of a head, a quoted name and a tail holds the quoted name. */
  lemma QuotedIn(head: string, alimento: string, tail: string)
    ensures Contains(head + Quoted(alimento) + tail, Quoted(alimento))
  {
    var t := head + Quoted(alimento) + tail;
    assert t[|head|..][..|Quoted(alimento)|] == Quoted(alimento);
    ContainsAt(t, Quoted(alimento), |head|);
  }

  /** The reply of the calorie branch for a prompt that names a food without a quantity. */
  function NameReply(alimento: string, lookup: string -> Option<Row>, floatStr: real -> string): (r: Reply)
    ensures r.Message?
    ensures HasEnergy(lookup(alimento)) ==> Contains(r.text, Show(lookup(alimento).value[EnergiaKey], floatStr) + " kcal por cada 100g.")
    ensures !HasEnergy(lookup(alimento)) ==> Contains(r.text, Quoted(alimento))
  {
    var info := lookup(alimento);
    if HasEnergy(info) then
      var head := Show(RowGet(info.value, "alimento", CText(alimento)), floatStr) + " contiene ";
      var tail := Show(info.value[EnergiaKey], floatStr) + " kcal por cada 100g.";
      assert (head + tail)[|head|..][..|tail|] == tail;
      ContainsAt(head + tail, tail, |head|);
      Message(head + tail)
    else
      var tail := ". ¿Puedes darme más detalles?";
      QuotedIn("No encontré información calórica para ", alimento, tail);
      Message("No encontré información calórica para " + Quoted(alimento) + tail)
  }

  /** The calorie branch. */
  function CaloriasReply(prompt: string, lookup: string -> Option<Row>, parse: string -> Option<real>,
                         floatStr: real -> string, fmt1: real -> string): (r: Reply)
    ensures r.InternalError? ==> QtySearch(prompt, 0).Some?
    ensures r.Fixed? <==> QtySearch(prompt, 0).None? && NameSearch(prompt, 0).None?
    ensures r.Fixed? ==> r.branch == Calorias
  {
    var qty := QtySearch(prompt, 0);
    if qty.Some? then
      var hit := qty.value.1;
      QtyReply(PyStrip(prompt[hit.food.start..hit.food.end]), Grams(hit), lookup, parse, floatStr, fmt1)
    else NameOnlyReply(prompt, lookup, floatStr)
  }

  /** The calorie branch for a prompt without a quantity: the single-name pattern. */
  function NameOnlyReply(prompt: string, lookup: string -> Option<Row>, floatStr: real -> string): Reply {
    var name := NameSearch(prompt, 0);
    if name.Some? then NameReply(PyStrip(prompt[name.value.start..name.value.end]), lookup, floatStr)
    else Fixed(Calorias)
  }

  const NA: Cell := CText("N/A")

  const FibraKey: string := "fibra (g)"

  /** A line of the nutrient reply: the heading, or a bullet with a label, a value and a unit. */
  datatype InfoLine = Heading(nombre: string) | Bullet(field: string, value: string, unit: string)

  function RenderLine(l: InfoLine): string {
    match l
    case Heading(n) => "Información nutricional de " + n + " (por 100g):"
    case Bullet(f, v, u) => "• " + f + ": " + v + " " + u
  }

  /** The lines of the nutrient reply; the fibra line only when the row has a fibra value. */
  function NutrientLines(info: Row, alimento: string, floatStr: real -> string): (r: seq<InfoLine>)
    ensures 5 <= |r| <= 6 && r[0].Heading?
    ensures forall k :: 1 <= k < |r| ==> r[k].Bullet?
  {
    var show := (key: string) => Show(RowGet(info, key, NA), floatStr);
    [ Heading(Show(RowGet(info, "alimento", CText(alimento)), floatStr)),
      Bullet("Energía", show(EnergiaKey), "kcal"),
      Bullet("Proteínas", show("proteina (g)"), "g"),
      Bullet("Carbohidratos", show("hidratos de carbono (g)"), "g"),
      Bullet("Grasas", show("lipidos (g)"), "g") ] +
    (if RowGet(info, FibraKey, NA) != NA then [Bullet("Fibra", show(FibraKey), "g")] else [])
  }

  /** Every line followed by a newline, as the successive `+=` of the handler lay them out. */
  function Lines(lines: seq<InfoLine>): string {
    if |lines| == 0 then "" else RenderLine(lines[0]) + "\n" + Lines(lines[1..])
  }

  const Cierre: string := "\n¿Quieres información sobre otro alimento?"

  /** The nutrient branch. */
  function NutrientesReply(prompt: string, lookup: string -> Option<Row>, floatStr: real -> string): (r: Reply)
    ensures r != InternalError
    ensures r.Fixed? <==> NutrientSearch(prompt, 0).None?
    ensures r.Fixed? ==> r.branch == Nutrientes
  {
    var m := NutrientSearch(prompt, 0);
    if m.None? then Fixed(Nutrientes)
    else
      var alimento := PyStrip(prompt[m.value.start..m.value.end]);
      var info := lookup(alimento);
      if info.Some? && |info.value| > 0 then Message(Lines(NutrientLines(info.value, alimento, floatStr)) + Cierre)
      else
        Message("No encontré información específica sobre \"" + alimento +
                "\" en mi base de datos. ¿Puedes verificar el nombre o quieres información sobre otro alimento?")
  }

  /** The reply chain of `do_POST` for the normalised prompt. */
  function ReplyTo(prompt: string, lookup: string -> Option<Row>, parse: string -> Option<real>,
                   floatStr: real -> string, fmt1: real -> string): (r: Reply)
    ensures r.InternalError? ==> Route(prompt) == Calorias
    ensures r.Fixed? ==> r.branch == Route(prompt)
    ensures Route(prompt) != Calorias && Route(prompt) != Nutrientes ==> r == Fixed(Route(prompt))
  {
    var b := Route(prompt);
    if b == Calorias then CaloriasReply(prompt, lookup, parse, floatStr, fmt1)
    else if b == Nutrientes then NutrientesReply(prompt, lookup, floatStr)
    else Fixed(b)
  }

  /** `do_POST` on `/chat`. */
  function HandleChat(body: Body, lookup: string -> Option<Row>, parse: string -> Option<real>,
                      floatStr: real -> string, fmt1: real -> string): (r: Reply)
    ensures r.InternalError? ==> Route(PromptOf(body)) == Calorias
    ensures r.Fixed? ==> r.branch == Route(PromptOf(body))
  {
    ReplyTo(PromptOf(body), lookup, parse, floatStr, fmt1)
  }

  // ---------------------------------------------------------------- the handler as written

  /**
   * The grams of the quantity as the handler computes them: the amount times
   * 1000 when the second word of the match starts with "kg", `None` for the
   * `IndexError` of a match with a single word.
   */
  function GramsAsWritten(s: string, p: nat, hit: QtyHit): (g: Option<real>)
    requires p <= hit.food.end <= |s|
    ensures g.None? <==> KgAsWritten(s, p, hit).None?
    ensures KgAsWritten(s, p, hit) == Some(IsKg(hit)) ==> g == Some(Grams(hit))
    ensures g.Some? ==> g.value == hit.cantidad || g.value == hit.cantidad * 1000.0
  {
    var kg := KgAsWritten(s, p, hit);
    if kg.None? then None
    else if kg.value then Some(hit.cantidad * 1000.0)
    else Some(hit.cantidad)
  }

  /**
   * The calorie branch as written: the unit is read back from the match text,
   * and a match with a single word ends in the `except` branch.
   */
  function CaloriasReplyAsWritten(prompt: string, lookup: string -> Option<Row>, parse: string -> Option<real>,
                                  floatStr: real -> string, fmt1: real -> string): (r: Reply)
    ensures var q := QtySearch(prompt, 0);
      q.None? || KgAsWritten(prompt, q.value.0, q.value.1) == Some(IsKg(q.value.1)) ==>
        r == CaloriasReply(prompt, lookup, parse, floatStr, fmt1)
    ensures var q := QtySearch(prompt, 0);
      q.Some? && KgAsWritten(prompt, q.value.0, q.value.1).None? ==> r == InternalError
  {
    var qty := QtySearch(prompt, 0);
    if qty.Some? then
      var hit := qty.value.1;
      var g := GramsAsWritten(prompt, qty.value.0, hit);
      if g.None? then InternalError
      else QtyReply(PyStrip(prompt[hit.food.start..hit.food.end]), g.value, lookup, parse, floatStr, fmt1)
    else NameOnlyReply(prompt, lookup, floatStr)
  }

  /** The reply chain as written: only the calorie branch differs from `ReplyTo`. */
  function ReplyAsWritten(prompt: string, lookup: string -> Option<Row>, parse: string -> Option<real>,
                          floatStr: real -> string, fmt1: real -> string): (r: Reply)
    ensures Route(prompt) != Calorias ==> r == ReplyTo(prompt, lookup, parse, floatStr, fmt1)
    ensures Route(prompt) == Calorias ==> r == CaloriasReplyAsWritten(prompt, lookup, parse, floatStr, fmt1)
  {
    if Route(prompt) == Calorias then CaloriasReplyAsWritten(prompt, lookup, parse, floatStr, fmt1)
    else ReplyTo(prompt, lookup, parse, floatStr, fmt1)
  }

  /** `do_POST` on `/chat` as written. */
  function HandleChatAsWritten(body: Body, lookup: string -> Option<Row>, parse: string -> Option<real>,
                               floatStr: real -> string, fmt1: real -> string): (r: Reply)
    ensures Route(PromptOf(body)) != Calorias ==> r == HandleChat(body, lookup, parse, floatStr, fmt1)
  {
    ReplyAsWritten(PromptOf(body), lookup, parse, floatStr, fmt1)
  }

  /**
   * Where the number and its unit are separated by whitespace, or the prompt
   * has no quantity at all, the handler as written and the corrected one give
   * the same reply.
   */
  lemma SpacedHandlersAgree(body: Body, lookup: string -> Option<Row>, parse: string -> Option<real>,
                            floatStr: real -> string, fmt1: real -> string)
    requires var q := QtySearch(PromptOf(body), 0);
      q.Some? ==> q.value.1.numEnd < |PromptOf(body)| && IsPySpace(PromptOf(body)[q.value.1.numEnd])
    ensures HandleChatAsWritten(body, lookup, parse, floatStr, fmt1) == HandleChat(body, lookup, parse, floatStr, fmt1)
  {
    var prompt := PromptOf(body);
    var q := QtySearch(prompt, 0);
    if q.Some? {
      KgSpacedAgrees(prompt, q.value.0, q.value.1);
    }
  }

  /**
   * In the calorie branch, a quantity match with a single word raises in the
   * handler as written and gets the internal error.
   */
  lemma SingleWordInternalError(prompt: string, lookup: string -> Option<Row>, parse: string -> Option<real>,
                                floatStr: real -> string, fmt1: real -> string)
    requires Route(prompt) == Calorias
    requires var q := QtySearch(prompt, 0); q.Some? && KgAsWritten(prompt, q.value.0, q.value.1).None?
    ensures ReplyAsWritten(prompt, lookup, parse, floatStr, fmt1) == InternalError
  {
  }

  /**
   * A calorie prompt starting with "2kg de arroz": as written the handler
   * looks up 2 grams of the food, the corrected one 2000 grams.
   */
  lemma GluedKgReplies(s: string, t: string, lookup: string -> Option<Row>, parse: string -> Option<real>,
                       floatStr: real -> string, fmt1: real -> string)
    requires s == Glued + t && EndsName(t) && Route(s) == Calorias
    ensures ReplyAsWritten(s, lookup, parse, floatStr, fmt1) == QtyReply(PyStrip(s[7..12]), 2.0, lookup, parse, floatStr, fmt1)
    ensures ReplyTo(s, lookup, parse, floatStr, fmt1) == QtyReply(PyStrip(s[7..12]), 2000.0, lookup, parse, floatStr, fmt1)
  {
    TwoKgMatch(s, t);
    KgGluedNotConverted(s, t);
    assert QtySearch(s, 0) == Some((0, QtyHit(2.0, 1, "kg", Span(7, 12))));
  }

  /**
   * A calorie prompt starting with "2kg  5": as written the handler answers
   * with the internal error, the corrected one with the quantity reply for
   * 2000 grams of the stripped food group.
   */
  lemma GluedSpacesReplies(s: string, t: string, lookup: string -> Option<Row>, parse: string -> Option<real>,
                           floatStr: real -> string, fmt1: real -> string)
    requires s == GluedSpaces + t && Route(s) == Calorias
    ensures ReplyAsWritten(s, lookup, parse, floatStr, fmt1) == InternalError
    ensures ReplyTo(s, lookup, parse, floatStr, fmt1) == QtyReply(PyStrip(s[4..5]), 2000.0, lookup, parse, floatStr, fmt1)
  {
    TwoKgSpacesMatch(s, t);
    KgGluedSingleWord(s, t);
    assert QtySearch(s, 0) == Some((0, QtyHit(2.0, 1, "kg", Span(4, 5))));
  }

  /** The keyword tests before the calorie one all need an 'h', a 'y', an 'i' or an 'm'. */
  lemma {:induction false} EarlyTestsNeed(s: string)
    requires 'h' !in s && 'y' !in s && 'i' !in s && 'm' !in s
    ensures forall j :: 0 <= j < 3 ==> !BranchHolds(s, j)
  {
    forall j | 0 <= j < 3
      ensures !BranchHolds(s, j)
    {
      var words := Keywords(Order[j]);
      AnyInIff(s, words);
      forall k | 0 <= k < |words|
        ensures !Contains(s, words[k])
      {
        var c := if 'h' in words[k] then 'h' else if 'y' in words[k] then 'y' else if 'i' in words[k] then 'i' else 'm';
        var i :| 0 <= i < |words[k]| && words[k][i] == c;
        if Contains(s, words[k]) {
          ContainsChar(s, words[k], i);
        }
      }
    }
  }

  /** "2kg de arroz, kcal" reaches the calorie branch and fits `GluedKgReplies`. */
  lemma GluedPromptRoutes(a: string)
    requires a == Glued + ", kcal"
    ensures Route(a) == Calorias && EndsName(a[12..])
  {
    GluedPromptText(a);
    EarlyTestsNeed(a);
    CaloriasKeywordAt(a, 14);
    RouteToCalorias(a);
  }

  lemma GluedPromptText(a: string)
    requires a == Glued + ", kcal"
    ensures 'h' !in a && 'y' !in a && 'i' !in a && 'm' !in a
    ensures |a| == 18 && a[12] == ','
    ensures a[14] == 'k' && a[15] == 'c' && a[16] == 'a' && a[17] == 'l'
  {
    assert a == "2kg de arroz, kcal";
  }

  /** "2kg  5 kcal" reaches the calorie branch and fits `GluedSpacesReplies`. */
  lemma GluedSpacesPromptRoutes(b: string)
    requires b == GluedSpaces + " kcal"
    ensures Route(b) == Calorias
  {
    GluedSpacesPromptText(b);
    EarlyTestsNeed(b);
    CaloriasKeywordAt(b, 7);
    RouteToCalorias(b);
  }

  lemma GluedSpacesPromptText(b: string)
    requires b == GluedSpaces + " kcal"
    ensures 'h' !in b && 'y' !in b && 'i' !in b && 'm' !in b
    ensures |b| == 11
    ensures b[7] == 'k' && b[8] == 'c' && b[9] == 'a' && b[10] == 'l'
  {
    assert b == "2kg  5 kcal";
  }

  /** The calorie test holding after three that fail routes to the calorie branch. */
  lemma RouteToCalorias(s: string)
    requires BranchHolds(s, 3) && forall j :: 0 <= j < 3 ==> !BranchHolds(s, j)
    ensures Route(s) == Calorias
  {
    var t := FirstTest(s, 0);
    assert t.Some? && t.value <= 3 && t.value >= 3;
    assert Order[3] == Calorias;
  }

  /** "kcal" at position `i` makes the calorie test hold. */
  lemma CaloriasKeywordAt(s: string, i: nat)
    requires i + 4 <= |s| && s[i] == 'k' && s[i + 1] == 'c' && s[i + 2] == 'a' && s[i + 3] == 'l'
    ensures BranchHolds(s, 3)
  {
    assert s[i..][..4] == "kcal";
    ContainsAt(s, "kcal", i);
    assert Keywords(Order[3])[2] == "kcal";
    AnyInIff(s, Keywords(Order[3]));
  }

  // ---------------------------------------------------------------- properties of the replies

  /** A request without a body, or without a prompt, gets the default assistant message. */
  lemma NoPromptDefault(body: Body, lookup: string -> Option<Row>, parse: string -> Option<real>,
                        floatStr: real -> string, fmt1: real -> string)
    requires body.NoBody? || body.prompt.None?
    ensures HandleChat(body, lookup, parse, floatStr, fmt1) == Fixed(Otro)
  {
    EmptyPromptDefault();
  }

  /** A prompt without any keyword gets the default assistant message. */
  lemma NoKeywordDefault(prompt: string, lookup: string -> Option<Row>, parse: string -> Option<real>,
                         floatStr: real -> string, fmt1: real -> string)
    requires forall b :: !AnyIn(prompt, Keywords(b))
    ensures ReplyTo(prompt, lookup, parse, floatStr, fmt1) == Fixed(Otro)
  {
    RouteFirst(prompt, 0);
  }

  /**
   * The calorie branch with a quantity and a found energy: the reply states
   * the energy per 100 g scaled by the grams, and adds the per-100 g note
   * exactly when the quantity is not 100 g.
   */
  lemma QtyEnergy(alimento: string, cantidad: real, lookup: string -> Option<Row>, parse: string -> Option<real>,
                  floatStr: real -> string, fmt1: real -> string, e100: real)
    requires HasEnergy(lookup(alimento))
    requires CellFloat(lookup(alimento).value[EnergiaKey], parse) == Some(e100)
    ensures var r := QtyReply(alimento, cantidad, lookup, parse, floatStr, fmt1);
      r.Message? && Contains(r.text, fmt1(e100 * cantidad / 100.0) + " kcal.") &&
      (cantidad == 100.0 <==> r.text[|r.text| - 1] == '.')
  {
    var nombre := Show(RowGet(lookup(alimento).value, "alimento", CText(alimento)), floatStr);
    EnergyTextShape(cantidad, nombre, e100, floatStr, fmt1);
  }

  /** The energy answer names the scaled energy, and ends with the per-100 g note exactly when the quantity is not 100 g. */
  lemma EnergyTextShape(cantidad: real, nombre: string, e100: real, floatStr: real -> string, fmt1: real -> string)
    ensures var text := EnergyText(cantidad, nombre, e100, floatStr, fmt1);
      Contains(text, fmt1(e100 * cantidad / 100.0) + " kcal.") && |text| > 0 &&
      (cantidad == 100.0 <==> text[|text| - 1] == '.')
  {
    var head := floatStr(cantidad) + "g de " + nombre + " contienen aproximadamente ";
    var mid := fmt1(EnergyFor(e100, cantidad)) + " kcal.";
    var tail := BasadoEn(cantidad, e100, floatStr);
    var text := EnergyText(cantidad, nombre, e100, floatStr, fmt1);
    assert text == head + mid + tail;
    assert text[|head|..][..|mid|] == mid;
    ContainsAt(text, mid, |head|);
    if cantidad != 100.0 {
      assert text[|text| - 1] == tail[|tail| - 1] == ')';
    } else {
      assert text[|text| - 1] == mid[|mid| - 1] == '.';
    }
  }

  /**
   * In the calorie branch the single-name pattern always matches, because the
   * keyword that chose the branch starts with a letter: the closing question
   * asking for a food and a quantity is never the reply.
   */
  lemma CaloriasAlwaysNames(prompt: string)
    requires Route(prompt) == Calorias
    ensures NameSearch(prompt, 0).Some?
  {
    var k :| 0 <= k < |Order| && Order[k] == Route(prompt) && BranchHolds(prompt, k) &&
             forall j :: 0 <= j < k ==> !BranchHolds(prompt, j);
    OrderRanks();
    assert k == Rank(Order[k]) == 3;
    CaloriasTestNames(prompt);
  }

  /** The calorie test holds only where a keyword, and so a letter, occurs. */
  lemma CaloriasTestNames(prompt: string)
    requires BranchHolds(prompt, 3)
    ensures NameSearch(prompt, 0).Some?
  {
    var words := Keywords(Calorias);
    AnyInIff(prompt, words);
    var k :| 0 <= k < |words| && Contains(prompt, words[k]);
    var i := ContainsWitness(prompt, words[k]);
    assert prompt[i..][..|words[k]|] == words[k];
    assert prompt[i] == words[k][0];
    NameSearchFinds(prompt, 0, i);
  }

  /**
   * In the nutrient reply, a fibra line is present exactly when the row has a
   * fibra value other than "N/A"; it is then the last line and shows that value.
   */
  lemma FibraLine(info: Row, alimento: string, floatStr: real -> string)
    ensures var lines := NutrientLines(info, alimento, floatStr);
      ((exists k :: 0 <= k < |lines| && lines[k].Bullet? && lines[k].field == "Fibra") <==> RowGet(info, FibraKey, NA) != NA) &&
      (RowGet(info, FibraKey, NA) != NA ==>
        |lines| == 6 && lines[5] == Bullet("Fibra", Show(RowGet(info, FibraKey, NA), floatStr), "g"))
  {
    var lines := NutrientLines(info, alimento, floatStr);
    assert |"Fibra"| == 5;
    assert lines[0].Heading?;
    assert forall k :: 1 <= k < 5 ==> |lines[k].field| != 5;
    if RowGet(info, FibraKey, NA) != NA {
      assert lines[5].Bullet? && lines[5].field == "Fibra";
    }
  }
}
