/**
 * Scanners for the regular-expression families the chat engine passes to
 * `re.findall` and `re.search` (flags IGNORECASE and DOTALL, on text that is
 * already lower-case).
 *
 * Each family is scanned left to right the way `findall` does: at a start
 * position the pattern either matches, and scanning resumes where the match
 * ends, or it does not, and scanning resumes one character further. The
 * number parts are matched greedily. For these families that is exactly
 * what the backtracking engine returns, because no continuation after a
 * number can start with a digit, a '.' or a ','.
 */
module Scan {
  import opened Text
  import opened Options

  // ---------------------------------------------------------------------
  // Decimal numbers

  /** The fractional part a number pattern allows after its integer digits. */
  datatype Frac =
    | NoFrac        // \d{a,b}
    | AnyFrac       // \d{a,b}(?:[\.,]\d+)?
    | TwoFrac       // \d{a,b}[\.,]\d{1,2}

  /** `\d{minInt,maxInt}` followed by the fractional part `frac`. */
  datatype NumSpec = NumSpec(minInt: nat, maxInt: nat, frac: Frac)

  /** A captured number, as `float(m.replace(",", "."))` reads it, and the index where the whole match ends. */
  datatype Hit = Hit(value: real, end: nat)

  predicate AllDigits(d: string) {
    forall k :: 0 <= k < |d| ==> IsDigit(d[k])
  }

  /** The length of the run of digits that starts at `p`. */
  function DigitRun(s: string, p: nat): (n: nat)
    requires p <= |s|
    ensures p + n <= |s|
    ensures forall k :: p <= k < p + n ==> IsDigit(s[k])
    ensures p + n == |s| || !IsDigit(s[p + n])
    decreases |s| - p
  {
    if p < |s| && IsDigit(s[p]) then 1 + DigitRun(s, p + 1) else 0
  }

  /** The value of a string of decimal digits (`int(d)`). */
  function DigitsValue(d: string): (v: nat)
    requires AllDigits(d)
    decreases |d|
  {
    if |d| == 0 then 0 else 10 * DigitsValue(d[..|d| - 1]) + DigitValue(d[|d| - 1])
  }

  /** The value of the digits after a decimal point. */
  function FracValue(d: string): (v: real)
    requires AllDigits(d)
    ensures 0.0 <= v < 1.0
    decreases |d|
  {
    if |d| == 0 then 0.0 else (DigitValue(d[0]) as real + FracValue(d[1..])) / 10.0
  }

  predicate IsDecimalSep(c: char) { c == '.' || c == ',' }

  /** The number the spec matches at `p`, greedily: as many integer digits as allowed, then the fraction. */
  function NumberAt(s: string, p: nat, spec: NumSpec): (r: Option<Hit>)
    requires p <= |s|
    ensures r.Some? ==> p < r.value.end <= |s| && IsDigit(s[p])
    ensures r.Some? ==> 0.0 <= r.value.value
  {
    var run := DigitRun(s, p);
    var k := if run < spec.maxInt then run else spec.maxInt;
    if k == 0 || k < spec.minInt then None
    else
      var i := p + k;
      var whole := DigitsValue(s[p..i]) as real;
      var hasFrac := i + 1 < |s| && IsDecimalSep(s[i]) && IsDigit(s[i + 1]);
      match spec.frac
      case NoFrac => Some(Hit(whole, i))
      case AnyFrac =>
        if hasFrac then
          var f := DigitRun(s, i + 1);
          Some(Hit(whole + FracValue(s[i + 1..i + 1 + f]), i + 1 + f))
        else Some(Hit(whole, i))
      case TwoFrac =>
        if hasFrac then
          var run2 := DigitRun(s, i + 1);
          var f := if run2 < 2 then run2 else 2;
          Some(Hit(whole + FracValue(s[i + 1..i + 1 + f]), i + 1 + f))
        else None
  }

  // ---------------------------------------------------------------------
  // Building blocks: `\s*`, alternatives of unit words, `.*?` searches

  function SpaceRun(s: string, q: nat): (n: nat)
    requires q <= |s|
    ensures q + n <= |s|
    decreases |s| - q
  {
    if q < |s| && IsPySpace(s[q]) then 1 + SpaceRun(s, q + 1) else 0
  }

  /** `\s*(?:u1|u2|…)` at `q`: the end of the first alternative that matches after the spaces. */
  function UnitAfter(s: string, q: nat, units: seq<string>): (r: Option<nat>)
    requires q <= |s|
    ensures r.Some? ==> q <= r.value <= |s|
    decreases |units|
  {
    var q' := q + SpaceRun(s, q);
    if |units| == 0 then None
    else if StartsWith(s[q'..], units[0]) then Some(q' + |units[0]|)
    else UnitAfter(s, q, units[1..])
  }

  /** The first index at or after `q` where `w` occurs (a lazy `.*?w`). */
  function FindFrom(s: string, w: string, q: nat): (r: Option<nat>)
    requires q <= |s|
    ensures r.Some? ==> q <= r.value && OccursAt(s, w, r.value)
    ensures r.Some? ==> forall j :: q <= j < r.value ==> !OccursAt(s, w, j)
    ensures r.None? ==> forall j :: q <= j <= |s| ==> !OccursAt(s, w, j)
    decreases |s| - q
  {
    if StartsWith(s[q..], w) then Some(q)
    else if q == |s| then None
    else FindFrom(s, w, q + 1)
  }

  /** `(N)\s*(?:units)` at `q`. */
  function NumUnitAt(s: string, q: nat, spec: NumSpec, units: seq<string>): (r: Option<Hit>)
    requires q <= |s|
    ensures r.Some? ==> q < r.value.end <= |s|
  {
    match NumberAt(s, q, spec)
    case None => None
    case Some(h) =>
      match UnitAfter(s, h.end, units)
      case None => None
      case Some(e) => Some(Hit(h.value, e))
  }

  /** `.*?(N)` from `q`: the number at the first position at or after `q` where one matches. */
  function NextNumber(s: string, q: nat, spec: NumSpec): (r: Option<Hit>)
    requires q <= |s|
    ensures r.Some? ==> q < r.value.end <= |s|
    decreases |s| - q
  {
    if q == |s| then None
    else if NumberAt(s, q, spec).Some? then NumberAt(s, q, spec)
    else NextNumber(s, q + 1, spec)
  }

  /** `.*?(N)\s*(?:units)` from `q`. */
  function NextNumUnit(s: string, q: nat, spec: NumSpec, units: seq<string>): (r: Option<Hit>)
    requires q <= |s|
    ensures r.Some? ==> q < r.value.end <= |s|
    decreases |s| - q
  {
    if q == |s| then None
    else if NumUnitAt(s, q, spec, units).Some? then NumUnitAt(s, q, spec, units)
    else NextNumUnit(s, q + 1, spec, units)
  }

  // ---------------------------------------------------------------------
  // The pattern families

  datatype Pattern =
    | Bare(num: NumSpec)                                      // (N)
    | NumUnit(num: NumSpec, units: seq<string>)               // (N)\s*(?:u1|u2|…)
    | NumUnitThen(num: NumSpec, unit: string, kw: string)     // (N)\s*unit.*?kw
    | KwNum(kw: string, num: NumSpec)                         // kw.*?(N)
    | KwNumUnit(kw: string, num: NumSpec, unit: string)       // kw.*?(N)\s*unit
    | KwKwNum(kw1: string, kw2: string, num: NumSpec)         // kw1.*?kw2.*?(N)

  /** The match of `pat` that starts exactly at `p`, if any. */
  function MatchAt(s: string, p: nat, pat: Pattern): (r: Option<Hit>)
    requires p <= |s|
    ensures r.Some? ==> p < r.value.end <= |s|
  {
    match pat
    case Bare(num) => NumberAt(s, p, num)
    case NumUnit(num, units) => NumUnitAt(s, p, num, units)
    case NumUnitThen(num, unit, kw) =>
      (match NumUnitAt(s, p, num, [unit])
       case None => None
       case Some(h) =>
         match FindFrom(s, kw, h.end)
         case None => None
         case Some(i) => Some(Hit(h.value, i + |kw|)))
    case KwNum(kw, num) =>
      if StartsWith(s[p..], kw) then NextNumber(s, p + |kw|, num) else None
    case KwNumUnit(kw, num, unit) =>
      if StartsWith(s[p..], kw) then NextNumUnit(s, p + |kw|, num, [unit]) else None
    case KwKwNum(kw1, kw2, num) =>
      if StartsWith(s[p..], kw1) then
        match FindFrom(s, kw2, p + |kw1|)
        case None => None
        case Some(i) => NextNumber(s, i + |kw2|, num)
      else None
  }

  /** `re.findall(pat, s[p..])`: the captured numbers of the successive non-overlapping matches. */
  function FindAll(s: string, pat: Pattern, p: nat): seq<real>
    requires p <= |s|
    decreases |s| - p
  {
    if p == |s| then []
    else match MatchAt(s, p, pat)
      case Some(h) => [h.value] + FindAll(s, pat, h.end)
      case None => FindAll(s, pat, p + 1)
  }

  /** A keyword pattern finds nothing in a text where its keyword does not occur. */
  lemma {:induction false} FindAllNoKeyword(s: string, pat: Pattern, p: nat)
    requires p <= |s|
    requires pat.KwNum? || pat.KwNumUnit?
    requires forall q :: p <= q <= |s| ==> !OccursAt(s, pat.kw, q)
    ensures FindAll(s, pat, p) == []
    decreases |s| - p
  {
    if p < |s| {
      assert !OccursAt(s, pat.kw, p);
      assert MatchAt(s, p, pat) == None;
      FindAllNoKeyword(s, pat, p + 1);
    }
  }

  /** A number pattern finds nothing in a text without digits. */
  lemma {:induction false} FindAllNoDigits(s: string, pat: Pattern, p: nat)
    requires p <= |s|
    requires pat.Bare? || pat.NumUnit? || pat.NumUnitThen?
    requires forall q :: p <= q < |s| ==> !IsDigit(s[q])
    ensures FindAll(s, pat, p) == []
    decreases |s| - p
  {
    if p < |s| {
      FindAllNoDigits(s, pat, p + 1);
    }
  }

  // ---------------------------------------------------------------------
  // The sexo patterns

  predicate IsMF(c: char) { c == 'M' || c == 'F' || c == 'm' || c == 'f' }

  /** `\b([MFmf])\b` at `q`: an m/f letter with no word character on either side. */
  predicate LoneMFAt(s: string, q: nat) {
    q < |s| && IsMF(s[q]) && (q == 0 || !IsWordChar(s[q - 1])) && (q + 1 == |s| || !IsWordChar(s[q + 1]))
  }

  /** `re.findall(r'\b([MFmf])\b', s[p..])`. */
  function LoneMF(s: string, p: nat): (r: seq<string>)
    requires p <= |s|
    ensures forall k :: 0 <= k < |r| ==> |r[k]| == 1 && IsMF(r[k][0])
    decreases |s| - p
  {
    if p == |s| then []
    else if LoneMFAt(s, p) then [[s[p]]] + LoneMF(s, p + 1)
    else LoneMF(s, p + 1)
  }

  /** The first m/f letter at or after `q`. */
  function NextMF(s: string, q: nat): (r: Option<nat>)
    requires q <= |s|
    ensures r.Some? ==> q <= r.value < |s| && IsMF(s[r.value])
    ensures r.Some? ==> forall j :: q <= j < r.value ==> !IsMF(s[j])
    ensures r.None? ==> forall j :: q <= j < |s| ==> !IsMF(s[j])
    decreases |s| - q
  {
    if q == |s| then None else if IsMF(s[q]) then Some(q) else NextMF(s, q + 1)
  }

  /** `re.findall(r'sexo.*?([MFmf])', s[p..])`. */
  function SexoMF(s: string, p: nat): (r: seq<string>)
    requires p <= |s|
    ensures forall k :: 0 <= k < |r| ==> |r[k]| == 1 && IsMF(r[k][0])
    decreases |s| - p
  {
    if p == |s| then []
    else if StartsWith(s[p..], "sexo") then
      match NextMF(s, p + 4)
      case Some(q) => [[s[q]]] + SexoMF(s, q + 1)
      case None => SexoMF(s, p + 1)
    else SexoMF(s, p + 1)
  }

  const SexWords: seq<string> := ["masculino", "femenino", "hombre", "mujer"]

  /** The first of the four words that starts at `p`. */
  function SexWordAt(s: string, p: nat, k: nat): (r: Option<string>)
    requires p <= |s| && k <= |SexWords|
    ensures r.Some? ==> r.value in SexWords && StartsWith(s[p..], r.value)
    decreases |SexWords| - k
  {
    if k == |SexWords| then None
    else if StartsWith(s[p..], SexWords[k]) then Some(SexWords[k])
    else SexWordAt(s, p, k + 1)
  }

  /** `re.findall(r'masculino|femenino|hombre|mujer', s[p..])`. */
  function SexWordMatches(s: string, p: nat): (r: seq<string>)
    requires p <= |s|
    ensures forall k :: 0 <= k < |r| ==> r[k] in SexWords
    decreases |s| - p
  {
    if p == |s| then []
    else match SexWordAt(s, p, 0)
      case Some(w) => [w] + SexWordMatches(s, p + |w|)
      case None => SexWordMatches(s, p + 1)
  }
}
