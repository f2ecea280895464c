/**
 * Character classes and the string operations of Python's `str` and
 * JavaScript's `String` that the chat engine and the UI helpers use:
 * lower-casing, `in`/`includes`, `startswith`, `strip`/`trim`,
 * `split('\n')` and `'\n'.join`.
 */
module Text {

  // ---------------------------------------------------------------------
  // Character classes

  predicate IsDigit(c: char) { '0' <= c <= '9' }

  function DigitValue(c: char): (d: nat)
    requires IsDigit(c)
    ensures d < 10
  {
    c as int - '0' as int
  }

  /** Python's `str.isspace`, which is also the `\s` class of `re` on str patterns. */
  predicate IsPySpace(c: char) {
    c == ' ' || ('\t' <= c <= '\r') || ('\U{1C}' <= c <= '\U{1F}') || c == '\U{85}' || c == '\U{A0}'
    || c == '\U{1680}' || ('\U{2000}' <= c <= '\U{200A}') || c == '\U{2028}' || c == '\U{2029}'
    || c == '\U{202F}' || c == '\U{205F}' || c == '\U{3000}'
  }

  /** JavaScript's WhiteSpace and LineTerminator, used by `trim` and by `\s` in a RegExp. */
  predicate IsJsSpace(c: char) {
    c == ' ' || ('\t' <= c <= '\r') || c == '\U{A0}' || c == '\U{1680}' || ('\U{2000}' <= c <= '\U{200A}')
    || c == '\U{2028}' || c == '\U{2029}' || c == '\U{202F}' || c == '\U{205F}' || c == '\U{3000}'
    || c == '\U{FEFF}'
  }

  /** The characters a JavaScript `.` does not match. */
  predicate IsJsLineTerminator(c: char) {
    c == '\n' || c == '\r' || c == '\U{2028}' || c == '\U{2029}'
  }

  /**
   * The `\w` class of Python's `re` on str patterns, for the characters up to
   * U+00FF: letters, digits (including the superscripts and vulgar fractions
   * of Latin-1, which Python counts as numeric) and the underscore.
   */
  predicate IsWordChar(c: char) {
    ('a' <= c <= 'z') || ('A' <= c <= 'Z') || IsDigit(c) || c == '_'
    || c == '\U{AA}' || c == '\U{B2}' || c == '\U{B3}' || c == '\U{B5}' || c == '\U{B9}' || c == '\U{BA}'
    || ('\U{BC}' <= c <= '\U{BE}') || ('\U{C0}' <= c <= '\U{D6}') || ('\U{D8}' <= c <= '\U{F6}')
    || ('\U{F8}' <= c <= '\U{FF}')
  }

  /** Lower-casing of ASCII and Latin-1 capitals (`str.lower`, `toLowerCase`). */
  function LowerChar(c: char): char {
    if 'A' <= c <= 'Z' || ('\U{C0}' <= c <= '\U{DE}' && c != '\U{D7}') then (c as int + 32) as char else c
  }

  /** Upper-casing of ASCII letters (`str.upper` on the letters the engine upper-cases). */
  function UpperChar(c: char): char {
    if 'a' <= c <= 'z' then (c as int - 32) as char else c
  }

  function Lower(s: string): (r: string)
    ensures |r| == |s|
  {
    seq(|s|, i requires 0 <= i < |s| => LowerChar(s[i]))
  }

  lemma LowerConcat(a: string, b: string)
    ensures Lower(a + b) == Lower(a) + Lower(b)
  {
  }

  // ---------------------------------------------------------------------
  // Prefixes and substrings

  predicate StartsWith(s: string, prefix: string) {
    |prefix| <= |s| && s[..|prefix|] == prefix
  }

  /** `sub in s` (Python) and `s.includes(sub)` (JavaScript). */
  predicate Contains(s: string, sub: string)
    decreases |s|
  {
    StartsWith(s, sub) || (|s| > 0 && Contains(s[1..], sub))
  }

  /** An occurrence of `sub` at index `i` of `s`. */
  predicate OccursAt(s: string, sub: string, i: int) {
    0 <= i <= |s| && StartsWith(s[i..], sub)
  }

  lemma {:induction false} ContainsAt(s: string, sub: string, i: int)
    requires OccursAt(s, sub, i)
    ensures Contains(s, sub)
    decreases i
  {
    if i > 0 {
      assert s[1..][i - 1..] == s[i..];
      ContainsAt(s[1..], sub, i - 1);
    } else {
      assert s[0..] == s;
    }
  }

  lemma {:induction false} ContainsWitness(s: string, sub: string) returns (i: int)
    requires Contains(s, sub)
    ensures OccursAt(s, sub, i)
    decreases |s|
  {
    if StartsWith(s, sub) {
      i := 0;
      assert s[0..] == s;
    } else {
      var j := ContainsWitness(s[1..], sub);
      assert s[1..][j..] == s[j + 1..];
      i := j + 1;
    }
  }

  lemma ContainsIff(s: string, sub: string)
    ensures Contains(s, sub) <==> exists i :: OccursAt(s, sub, i)
  {
    if Contains(s, sub) {
      var i := ContainsWitness(s, sub);
    }
    forall i | OccursAt(s, sub, i) ensures Contains(s, sub) {
      ContainsAt(s, sub, i);
    }
  }

  lemma ContainsConcat(a: string, b: string, sub: string)
    requires Contains(a, sub) || Contains(b, sub)
    ensures Contains(a + b, sub)
  {
    ContainsIff(a, sub);
    ContainsIff(b, sub);
    if Contains(a, sub) {
      var i :| OccursAt(a, sub, i);
      assert (a + b)[i..][..|sub|] == a[i..][..|sub|];
      ContainsAt(a + b, sub, i);
    } else {
      var i :| OccursAt(b, sub, i);
      assert (a + b)[|a| + i..] == b[i..];
      ContainsAt(a + b, sub, |a| + i);
    }
  }

  lemma ContainsSelf(s: string)
    ensures Contains(s, s)
  {
    assert StartsWith(s, s);
  }

  /** A string shorter than `sub` does not contain it. */
  lemma {:induction false} NotContainsShort(s: string, sub: string)
    requires |s| < |sub|
    ensures !Contains(s, sub)
    decreases |s|
  {
    if |s| > 0 {
      NotContainsShort(s[1..], sub);
    }
  }

  /** A string containing `sub` contains every character of `sub`. */
  lemma ContainsChar(s: string, sub: string, k: int)
    requires Contains(s, sub) && 0 <= k < |sub|
    ensures sub[k] in s
  {
    ContainsIff(s, sub);
    var i :| OccursAt(s, sub, i);
    assert s[i..][..|sub|][k] == s[i + k];
  }

  /** `contains` is transitive: a substring of a substring is a substring. */
  lemma ContainsTrans(s: string, u: string, w: string)
    requires Contains(s, u) && Contains(u, w)
    ensures Contains(s, w)
  {
    var i := ContainsWitness(s, u);
    var j := ContainsWitness(u, w);
    forall k | 0 <= k < |w| ensures s[i + j + k] == w[k] {
      assert u[j..][..|w|][k] == w[k];
      assert s[i..][..|u|][j + k] == u[j + k];
    }
    assert s[i + j..][..|w|] == w;
    ContainsAt(s, w, i + j);
  }

  lemma ContainsSlice(s: string, i: int, j: int)
    requires 0 <= i <= j <= |s|
    ensures Contains(s, s[i..j])
  {
    assert s[i..][..j - i] == s[i..j];
    ContainsAt(s, s[i..j], i);
  }

  /** Lower-casing keeps substrings. */
  lemma ContainsLower(s: string, u: string)
    requires Contains(s, u)
    ensures Contains(Lower(s), Lower(u))
  {
    var i := ContainsWitness(s, u);
    assert s[i..][..|u|] == u;
    assert Lower(s)[i..][..|u|] == Lower(u);
    ContainsAt(Lower(s), Lower(u), i);
  }

  /** `any(w in s for w in words)`. */
  predicate AnyIn(s: string, words: seq<string>)
    decreases |words|
  {
    |words| > 0 && (Contains(s, words[0]) || AnyIn(s, words[1..]))
  }

  lemma {:induction false} AnyInIff(s: string, words: seq<string>)
    ensures AnyIn(s, words) <==> exists k :: 0 <= k < |words| && Contains(s, words[k])
    decreases |words|
  {
    if |words| > 0 {
      AnyInIff(s, words[1..]);
      if AnyIn(s, words[1..]) {
        var k :| 0 <= k < |words[1..]| && Contains(s, words[1..][k]);
        assert Contains(s, words[k + 1]);
      }
      forall k | 1 <= k < |words| && Contains(s, words[k]) ensures AnyIn(s, words[1..]) {
        assert words[1..][k - 1] == words[k];
      }
    }
  }

  /** A word of a substring is a word of the string. */
  lemma {:induction false} AnyInSub(s: string, u: string, words: seq<string>)
    requires Contains(s, u)
    ensures AnyIn(u, words) ==> AnyIn(s, words)
    decreases |words|
  {
    if |words| > 0 {
      if Contains(u, words[0]) {
        ContainsTrans(s, u, words[0]);
      }
      AnyInSub(s, u, words[1..]);
    }
  }

  /** A string shorter than every word contains none of them. */
  lemma {:induction false} AnyInShort(s: string, words: seq<string>)
    requires forall k :: 0 <= k < |words| ==> |s| < |words[k]|
    ensures !AnyIn(s, words)
    decreases |words|
  {
    if |words| > 0 {
      NotContainsShort(s, words[0]);
      AnyInShort(s, words[1..]);
    }
  }

  /** Only a non-empty string can contain one of several non-empty words. */
  lemma {:induction false} AnyInNonEmpty(s: string, words: seq<string>)
    requires forall k :: 0 <= k < |words| ==> words[k] != ""
    ensures AnyIn(s, words) ==> s != ""
    decreases |words|
  {
    if |words| > 0 {
      if s == "" {
        NotContainsShort(s, words[0]);
      }
      AnyInNonEmpty(s, words[1..]);
    }
  }

  // ---------------------------------------------------------------------
  // strip / trim

  function TrimLeft(s: string, ws: char -> bool): (r: string)
    decreases |s|
  {
    if |s| > 0 && ws(s[0]) then TrimLeft(s[1..], ws) else s
  }

  function TrimRight(s: string, ws: char -> bool): (r: string)
    decreases |s|
  {
    if |s| > 0 && ws(s[|s| - 1]) then TrimRight(s[..|s| - 1], ws) else s
  }

  /** `str.strip()` / `String.prototype.trim`, for the whitespace class `ws`. */
  function Trim(s: string, ws: char -> bool): string {
    TrimRight(TrimLeft(s, ws), ws)
  }

  function PyStrip(s: string): string { Trim(s, IsPySpace) }

  function JsTrim(s: string): string { Trim(s, IsJsSpace) }

  /** A string that starts and ends with a character outside the class is its own trim. */
  lemma TrimEnds(s: string, ws: char -> bool)
    requires |s| > 0 && !ws(s[0]) && !ws(s[|s| - 1])
    ensures Trim(s, ws) == s
  {
    assert TrimLeft(s, ws) == s;
  }

  /** `strip` returns a substring. */
  lemma ContainsTrim(s: string, ws: char -> bool)
    ensures Contains(s, Trim(s, ws))
  {
    ContainsTrimLeft(s, ws);
    ContainsTrimRight(TrimLeft(s, ws), ws);
    ContainsTrans(s, TrimLeft(s, ws), Trim(s, ws));
  }

  lemma {:induction false} TrimLeftKeeps(s: string, ws: char -> bool, c: char)
    requires c in s && !ws(c)
    ensures c in TrimLeft(s, ws)
    decreases |s|
  {
    if |s| > 0 && ws(s[0]) {
      var k :| 0 <= k < |s| && s[k] == c;
      assert s[1..][k - 1] == c;
      TrimLeftKeeps(s[1..], ws, c);
    }
  }

  lemma {:induction false} TrimRightKeeps(s: string, ws: char -> bool, c: char)
    requires c in s && !ws(c)
    ensures c in TrimRight(s, ws)
    decreases |s|
  {
    if |s| > 0 && ws(s[|s| - 1]) {
      var k :| 0 <= k < |s| && s[k] == c;
      assert s[..|s| - 1][k] == c;
      TrimRightKeeps(s[..|s| - 1], ws, c);
    }
  }

  /** Trimming removes only characters of the class. */
  lemma TrimKeeps(s: string, ws: char -> bool, c: char)
    requires c in s && !ws(c)
    ensures c in Trim(s, ws)
  {
    TrimLeftKeeps(s, ws, c);
    TrimRightKeeps(TrimLeft(s, ws), ws, c);
  }

  /** Trimming adds no character. */
  lemma TrimNoChar(s: string, ws: char -> bool, c: char)
    requires c !in s
    ensures c !in Trim(s, ws)
  {
    var t := Trim(s, ws);
    if c in t {
      var i :| 0 <= i < |t| && t[i] == c;
      ContainsTrim(s, ws);
      ContainsChar(s, t, i);
    }
  }

  lemma {:induction false} ContainsTrimLeft(s: string, ws: char -> bool)
    ensures Contains(s, TrimLeft(s, ws))
    decreases |s|
  {
    if |s| > 0 && ws(s[0]) {
      ContainsTrimLeft(s[1..], ws);
      ContainsSlice(s, 1, |s|);
      assert s[1..|s|] == s[1..];
      ContainsTrans(s, s[1..], TrimLeft(s[1..], ws));
    } else {
      ContainsSelf(s);
    }
  }

  lemma {:induction false} ContainsTrimRight(s: string, ws: char -> bool)
    ensures Contains(s, TrimRight(s, ws))
    decreases |s|
  {
    if |s| > 0 && ws(s[|s| - 1]) {
      ContainsTrimRight(s[..|s| - 1], ws);
      ContainsSlice(s, 0, |s| - 1);
      ContainsTrans(s, s[..|s| - 1], TrimRight(s[..|s| - 1], ws));
    } else {
      ContainsSelf(s);
    }
  }

  /** Trimming twice is trimming once. */
  lemma TrimTwice(s: string, ws: char -> bool)
    ensures Trim(Trim(s, ws), ws) == Trim(s, ws)
  {
    var u := TrimLeft(s, ws);
    TrimLeftStops(s, ws);
    TrimRightStops(u, ws);
    if |Trim(s, ws)| > 0 {
      TrimEnds(Trim(s, ws), ws);
    }
  }

  lemma {:induction false} TrimLeftStops(s: string, ws: char -> bool)
    ensures TrimLeft(s, ws) == "" || !ws(TrimLeft(s, ws)[0])
    decreases |s|
  {
    if |s| > 0 && ws(s[0]) {
      TrimLeftStops(s[1..], ws);
    }
  }

  lemma {:induction false} TrimRightStops(s: string, ws: char -> bool)
    ensures TrimRight(s, ws) == "" || (TrimRight(s, ws)[0] == s[0] && !ws(TrimRight(s, ws)[|TrimRight(s, ws)| - 1]))
    decreases |s|
  {
    if |s| > 0 && ws(s[|s| - 1]) {
      TrimRightStops(s[..|s| - 1], ws);
    }
  }

  lemma {:induction false} TrimLeftNoWs(s: string, ws: char -> bool)
    requires forall k :: 0 <= k < |s| ==> !ws(s[k])
    ensures TrimLeft(s, ws) == s && TrimRight(s, ws) == s
  {
  }

  // ---------------------------------------------------------------------
  // split / join on one separator character

  /** `s.split(sep)` in Python and JavaScript: the pieces between the separators. */
  function Split(s: string, sep: char): (r: seq<string>)
    ensures |r| > 0
    decreases |s|
  {
    if |s| == 0 then [""]
    else
      var rest := Split(s[1..], sep);
      if s[0] == sep then [""] + rest else [[s[0]] + rest[0]] + rest[1..]
  }

  /** `sep.join(L)` (Python) and `L.join(sep)` (JavaScript). */
  function Join(L: seq<string>, sep: char): string
    decreases |L|
  {
    if |L| == 0 then "" else if |L| == 1 then L[0] else L[0] + [sep] + Join(L[1..], sep)
  }

  lemma {:induction false} SplitNoSep(s: string, sep: char)
    requires sep !in s
    ensures Split(s, sep) == [s]
    decreases |s|
  {
    if |s| > 0 {
      SplitNoSep(s[1..], sep);
      assert [s[0]] + s[1..] == s;
    }
  }

  /** Splitting distributes over a separator: `(a + sep + b).split(sep) == a.split(sep) + b.split(sep)` when `a` has no separator. */
  lemma {:induction false} SplitCons(a: string, b: string, sep: char)
    requires sep !in a
    ensures Split(a + [sep] + b, sep) == [a] + Split(b, sep)
    decreases |a|
  {
    if |a| == 0 {
      assert a + [sep] + b == [sep] + b;
      assert ([sep] + b)[1..] == b;
    } else {
      assert (a + [sep] + b)[1..] == a[1..] + [sep] + b;
      SplitCons(a[1..], b, sep);
      assert [a[0]] + a[1..] == a;
    }
  }

  /** The first piece of a split is a prefix of the string. */
  lemma {:induction false} SplitFirstPrefix(s: string, sep: char)
    ensures StartsWith(s, Split(s, sep)[0])
    decreases |s|
  {
    if |s| > 0 && s[0] != sep {
      SplitFirstPrefix(s[1..], sep);
      var rest := Split(s[1..], sep);
      assert Split(s, sep)[0] == [s[0]] + rest[0];
      assert s[..1 + |rest[0]|] == [s[0]] + s[1..][..|rest[0]|];
    }
  }

  /** Every piece of a split is a substring of the string, and the first one a prefix. */
  lemma {:induction false} SplitPieces(s: string, sep: char)
    ensures StartsWith(s, Split(s, sep)[0])
    ensures forall k :: 0 <= k < |Split(s, sep)| ==> Contains(s, Split(s, sep)[k])
    decreases |s|
  {
    SplitFirstPrefix(s, sep);
    var r := Split(s, sep);
    ContainsAt(s, r[0], 0);
    if |s| > 0 {
      SplitPieces(s[1..], sep);
      var rest := Split(s[1..], sep);
      ContainsSlice(s, 1, |s|);
      assert s[1..|s|] == s[1..];
      forall k | 1 <= k < |r| ensures Contains(s, r[k]) {
        var k' := if s[0] == sep then k - 1 else k;
        assert r[k] == rest[k'];
        ContainsTrans(s, s[1..], rest[k']);
      }
    }
  }

  /** Join is a right inverse of split: re-joining the pieces gives back the string. */
  lemma {:induction false} JoinSplit(s: string, sep: char)
    ensures Join(Split(s, sep), sep) == s
    decreases |s|
  {
    if |s| > 0 {
      JoinSplit(s[1..], sep);
      var rest := Split(s[1..], sep);
      if s[0] == sep {
        assert Split(s, sep) == [""] + rest;
        if |rest| == 1 {
          assert Join([""] + rest, sep) == "" + [sep] + rest[0];
        } else {
          assert ([""] + rest)[1..] == rest;
        }
        assert s == [sep] + s[1..];
      } else {
        var r := [[s[0]] + rest[0]] + rest[1..];
        assert Split(s, sep) == r;
        if |rest| == 1 {
          assert Join(r, sep) == [s[0]] + rest[0];
        } else {
          assert r[1..] == rest[1..];
          assert Join(r, sep) == [s[0]] + rest[0] + [sep] + Join(rest[1..], sep);
          assert Join(rest, sep) == rest[0] + [sep] + Join(rest[1..], sep);
        }
        assert s == [s[0]] + s[1..];
      }
    }
  }

  /** Split is a left inverse of join for lines without the separator. */
  lemma {:induction false} SplitJoin(L: seq<string>, sep: char)
    requires |L| > 0
    requires forall k :: 0 <= k < |L| ==> sep !in L[k]
    ensures Split(Join(L, sep), sep) == L
    decreases |L|
  {
    if |L| == 1 {
      SplitNoSep(L[0], sep);
    } else {
      SplitJoin(L[1..], sep);
      SplitCons(L[0], Join(L[1..], sep), sep);
      assert [L[0]] + L[1..] == L;
    }
  }

  /** No piece of a split holds the separator. */
  lemma {:induction false} SplitPiecesNoSep(s: string, sep: char)
    ensures forall k :: 0 <= k < |Split(s, sep)| ==> sep !in Split(s, sep)[k]
    decreases |s|
  {
    if |s| > 0 {
      SplitPiecesNoSep(s[1..], sep);
      var rest := Split(s[1..], sep);
      if s[0] != sep {
        var r := [[s[0]] + rest[0]] + rest[1..];
        forall k | 0 <= k < |r| ensures sep !in r[k] {
          if k > 0 { assert r[k] == rest[k]; }
        }
      }
    }
  }

  /** Joining splits at any inner position: the part before, the separator, the part after. */
  lemma {:induction false} JoinAt(L: seq<string>, k: nat, sep: char)
    requires 0 < k < |L|
    ensures Join(L, sep) == Join(L[..k], sep) + [sep] + Join(L[k..], sep)
    decreases k
  {
    if k > 1 {
      JoinAt(L[1..], k - 1, sep);
      assert L[..k][1..] == L[1..][..k - 1];
      assert L[1..][k - 1..] == L[k..];
    }
  }

  function Last<T>(L: seq<T>): T
    requires |L| > 0
  {
    L[|L| - 1]
  }
}
